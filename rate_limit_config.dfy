/**
 * The per-method limit table of the rate limiter, with its default
 * (internal/pkg/rate-limiter/v1/config.go).  Windows are Go durations
 * (nanoseconds).  The read/write lock around the table is not modelled:
 * every operation is one sequential step.
 */
module RateLimitConfig {

  /** `Limit`: at most `count` requests per `window`. */
  datatype Limit = Limit(count: int, window: int)

  predicate Positive(l: Limit)
  {
    l.count > 0 && l.window > 0
  }

  class Config {
    var defaultLimit: Limit
    var methodLimits: map<string, Limit>

    /** Every limit the table can hand out has a positive count and window. */
    ghost predicate Valid()
      reads this
    {
      Positive(defaultLimit) && forall m :: m in methodLimits ==> Positive(methodLimits[m])
    }

    /** `NewConfig`: panics unless both count and window are positive, and
        starts with no per-method override. */
    constructor (count: int, window: int)
      requires count > 0 && window > 0
      ensures Valid()
      ensures defaultLimit == Limit(count, window) && methodLimits == map[]
      ensures forall m :: LimitFor(m) == Limit(count, window)
    {
      defaultLimit := Limit(count, window);
      methodLimits := map[];
    }

    /** `SetMethod`: panics unless both count and window are positive;
        (over)writes the entry for `fullMethod` and nothing else. */
    method SetMethod(fullMethod: string, count: int, window: int)
      requires Valid()
      requires count > 0 && window > 0
      modifies this
      ensures Valid()
      ensures defaultLimit == old(defaultLimit)
      ensures methodLimits == old(methodLimits)[fullMethod := Limit(count, window)]
      ensures LimitFor(fullMethod) == Limit(count, window)
      ensures forall m :: m != fullMethod ==> LimitFor(m) == old(LimitFor(m))
    {
      methodLimits := methodLimits[fullMethod := Limit(count, window)];
    }

    /** `getMethodLimitOrDefault`: the override when one is present, else the
        default; always a positive limit. */
    function LimitFor(fullMethod: string): (l: Limit)
      reads this
      ensures Valid() ==> Positive(l)
      ensures fullMethod in methodLimits ==> l == methodLimits[fullMethod]
      ensures fullMethod !in methodLimits ==> l == defaultLimit
    {
      if fullMethod in methodLimits then methodLimits[fullMethod] else defaultLimit
    }
  }
}
