/** The per-service manager of src/CircuitBreakerManager.php: a lazily
    filled cache from service name to engine instance, a configuration
    resolved field by field from per-service overrides over a default, and
    six operations that resolve the name and delegate to the instance. */
module Manager {
  import opened Base
  import opened PhpCircuitBreaker

  /** A value in an override array: an int, a bool, or null. */
  datatype PhpValue = PhpInt(i: int) | PhpBool(b: bool) | PhpNull

  type Options = map<string, PhpValue>

  const FAILURE_THRESHOLD: string := "failure_threshold"
  const SUCCESS_THRESHOLD: string := "success_threshold"
  const TIME_WINDOW: string := "time_window"
  const OPEN_TIMEOUT: string := "open_timeout"
  const HALF_OPEN_TIMEOUT: string := "half_open_timeout"
  const EXCEPTIONS_ENABLED: string := "exceptions_enabled"

  /** PHP `isset($options[$key])`: present and not null. */
  predicate IsSet(options: Options, key: string)
  {
    key in options && options[key] != PhpNull
  }

  /** `(int)` of a set value: a bool becomes 0 or 1. */
  function CastInt(v: PhpValue): int
  {
    match v
    case PhpInt(i) => i
    case PhpBool(b) => if b then 1 else 0
    case PhpNull => 0
  }

  /** `(bool)` of a set value: an int is true when non-zero. */
  function CastBool(v: PhpValue): bool
  {
    match v
    case PhpInt(i) => i != 0
    case PhpBool(b) => b
    case PhpNull => false
  }

  /** Private method `intOption`: the default for a missing or null
      option, otherwise the option as an int, a bool becoming 1 or 0. */
  function IntOption(options: Options, key: string, default: int): (r: int)
    ensures key !in options ==> r == default
    ensures key in options && options[key] == PhpNull ==> r == default
    ensures key in options && options[key].PhpInt? ==> r == options[key].i
    ensures key in options && options[key] == PhpBool(true) ==> r == 1
    ensures key in options && options[key] == PhpBool(false) ==> r == 0
  {
    if !IsSet(options, key) then default else CastInt(options[key])
  }

  /** Private method `boolOption`: the default for a missing or null
      option, otherwise the option as a bool, an int being true when
      non-zero. */
  function BoolOption(options: Options, key: string, default: bool): (r: bool)
    ensures key !in options ==> r == default
    ensures key in options && options[key] == PhpNull ==> r == default
    ensures key in options && options[key].PhpBool? ==> r == options[key].b
    ensures key in options && options[key].PhpInt? ==> (r <==> options[key].i != 0)
  {
    if !IsSet(options, key) then default else CastBool(options[key])
  }

  /** Method `resolveConfig`: the default unless the service has overrides;
      with overrides, each field takes the override when it is set and the
      default's field otherwise. */
  function ResolveConfig(defaultConfig: CircuitBreakerConfig, serviceOverrides: map<string, Options>, service: string): (c: CircuitBreakerConfig)
    ensures service !in serviceOverrides ==> c == defaultConfig
    ensures service in serviceOverrides ==>
      var o := serviceOverrides[service];
      && c.failureThreshold == (if IsSet(o, FAILURE_THRESHOLD) then CastInt(o[FAILURE_THRESHOLD]) else defaultConfig.failureThreshold)
      && c.successThreshold == (if IsSet(o, SUCCESS_THRESHOLD) then CastInt(o[SUCCESS_THRESHOLD]) else defaultConfig.successThreshold)
      && c.timeWindow == (if IsSet(o, TIME_WINDOW) then CastInt(o[TIME_WINDOW]) else defaultConfig.timeWindow)
      && c.openTimeout == (if IsSet(o, OPEN_TIMEOUT) then CastInt(o[OPEN_TIMEOUT]) else defaultConfig.openTimeout)
      && c.halfOpenTimeout == (if IsSet(o, HALF_OPEN_TIMEOUT) then CastInt(o[HALF_OPEN_TIMEOUT]) else defaultConfig.halfOpenTimeout)
      && c.exceptionsEnabled == (if IsSet(o, EXCEPTIONS_ENABLED) then CastBool(o[EXCEPTIONS_ENABLED]) else defaultConfig.exceptionsEnabled)
  {
    if service !in serviceOverrides then defaultConfig
    else
      var overrides := serviceOverrides[service];
      CircuitBreakerConfig(
        IntOption(overrides, FAILURE_THRESHOLD, defaultConfig.failureThreshold),
        IntOption(overrides, SUCCESS_THRESHOLD, defaultConfig.successThreshold),
        IntOption(overrides, TIME_WINDOW, defaultConfig.timeWindow),
        IntOption(overrides, OPEN_TIMEOUT, defaultConfig.openTimeout),
        IntOption(overrides, HALF_OPEN_TIMEOUT, defaultConfig.halfOpenTimeout),
        BoolOption(overrides, EXCEPTIONS_ENABLED, defaultConfig.exceptionsEnabled))
  }

  /** An option missing or null gives the default; a set one ignores it. */
  lemma OptionsFallBack(options: Options, key: string, d1: int, d2: int, b1: bool, b2: bool)
    ensures !IsSet(options, key) ==> IntOption(options, key, d1) == d1 && BoolOption(options, key, b1) == b1
    ensures IsSet(options, key) ==> IntOption(options, key, d1) == IntOption(options, key, d2)
    ensures IsSet(options, key) ==> BoolOption(options, key, b1) == BoolOption(options, key, b2)
  {
  }

  /** Resolving again over a resolved config changes nothing: every set
      field already came from the override. */
  lemma ResolveConfigIdempotent(defaultConfig: CircuitBreakerConfig, serviceOverrides: map<string, Options>, service: string)
    ensures var c := ResolveConfig(defaultConfig, serviceOverrides, service);
      ResolveConfig(c, serviceOverrides, service) == c
  {
  }

  /** An override array that is empty, or holds only nulls, resolves to
      the default config. */
  lemma EmptyOverrideIsDefault(defaultConfig: CircuitBreakerConfig, serviceOverrides: map<string, Options>, service: string)
    requires service in serviceOverrides
    requires forall k :: k in serviceOverrides[service] ==> serviceOverrides[service][k] == PhpNull
    ensures ResolveConfig(defaultConfig, serviceOverrides, service) == defaultConfig
  {
  }

  /** An override setting all six options resolves the same over any
      default. */
  lemma FullOverrideIgnoresDefault(d1: CircuitBreakerConfig, d2: CircuitBreakerConfig, serviceOverrides: map<string, Options>, service: string)
    requires service in serviceOverrides
    requires var o := serviceOverrides[service];
      IsSet(o, FAILURE_THRESHOLD) && IsSet(o, SUCCESS_THRESHOLD) && IsSet(o, TIME_WINDOW) &&
      IsSet(o, OPEN_TIMEOUT) && IsSet(o, HALF_OPEN_TIMEOUT) && IsSet(o, EXCEPTIONS_ENABLED)
    ensures ResolveConfig(d1, serviceOverrides, service) == ResolveConfig(d2, serviceOverrides, service)
  {
  }

  class CircuitBreakerManager {
    const storage: Storage
    const defaultConfig: CircuitBreakerConfig
    const eventDispatcher: Option<EventDispatcher>
    const serviceOverrides: map<string, Options>
    var instances: map<string, CircuitBreaker>

    /** An instance as `resolve` builds it for a service. */
    predicate Built(cb: CircuitBreaker, service: string)
    {
      cb.storage == storage && cb.eventDispatcher == eventDispatcher &&
      cb.config == ResolveConfig(defaultConfig, serviceOverrides, service)
    }

    /** Every cached instance was built for its name, and no instance is
        cached under two names. */
    ghost predicate Valid()
      reads this
    {
      (forall s :: s in instances ==> Built(instances[s], s)) &&
      (forall s1, s2 :: s1 in instances && s2 in instances && s1 != s2 ==> instances[s1] != instances[s2])
    }

    constructor (storage: Storage, defaultConfig: CircuitBreakerConfig, eventDispatcher: Option<EventDispatcher>, serviceOverrides: map<string, Options>)
      ensures Valid() && instances == map[]
      ensures this.storage == storage && this.defaultConfig == defaultConfig
      ensures this.eventDispatcher == eventDispatcher && this.serviceOverrides == serviceOverrides
    {
      this.storage := storage;
      this.defaultConfig := defaultConfig;
      this.eventDispatcher := eventDispatcher;
      this.serviceOverrides := serviceOverrides;
      instances := map[];
    }

    /** Method `resolve`: the cached instance, or a new one built with the
        shared storage and dispatcher and the resolved config, cached under
        the name; no other entry changes. */
    method Resolve(service: string) returns (cb: CircuitBreaker)
      requires Valid()
      modifies this`instances
      ensures Valid() && service in instances && cb == instances[service] && Built(cb, service)
      ensures service in old(instances) ==> instances == old(instances)
      ensures service !in old(instances) ==> fresh(cb) && cb.calls == [] && instances == old(instances)[service := cb]
    {
      if service !in instances {
        var created := new CircuitBreaker(storage, ResolveConfig(defaultConfig, serviceOverrides, service), eventDispatcher);
        instances := instances[service := created];
      }
      cb := instances[service];
    }

    /** The cache after one delegated call: the name is resolved, its
        instance has received exactly `call` on top of what it had (nothing,
        when new), and every other instance is untouched. */
    twostate predicate DelegatedOnce(service: string, call: Call)
      reads this, instances.Values
    {
      && service in instances
      && (service in old(instances) ==> instances == old(instances))
      && (service !in old(instances) ==> fresh(instances[service]) && instances == old(instances)[service := instances[service]])
      && instances[service].calls == (if service in old(instances) then old(instances[service].calls) else []) + [call]
      && (forall s :: s in old(instances) && s != service ==> instances[s].calls == old(instances[s].calls))
    }

    method CanPass(service: string) returns (pass: bool)
      requires Valid()
      modifies this`instances, instances.Values
      ensures Valid() && DelegatedOnce(service, CanPassCall(service))
      ensures pass == (StoredState(storage, service) != OPEN)
    {
      var cb := Resolve(service);
      pass := cb.CanPass(service);
    }

    method RecordFailure(service: string)
      requires Valid()
      modifies this`instances, instances.Values
      ensures Valid() && DelegatedOnce(service, RecordFailureCall(service))
    {
      var cb := Resolve(service);
      cb.RecordFailure(service);
    }

    method RecordSuccess(service: string)
      requires Valid()
      modifies this`instances, instances.Values
      ensures Valid() && DelegatedOnce(service, RecordSuccessCall(service))
    {
      var cb := Resolve(service);
      cb.RecordSuccess(service);
    }

    method GetState(service: string) returns (state: CircuitState)
      requires Valid()
      modifies this`instances, instances.Values
      ensures Valid() && DelegatedOnce(service, GetStateCall(service))
      ensures state == StoredState(storage, service)
    {
      var cb := Resolve(service);
      state := cb.GetState(service);
    }

    method ForceState(service: string, state: CircuitState, ttl: Option<int>)
      requires Valid()
      modifies this`instances, instances.Values, storage`states
      ensures Valid() && DelegatedOnce(service, ForceStateCall(service, state, ttl))
      ensures storage.states == old(storage.states)[service := state]
    {
      var cb := Resolve(service);
      cb.ForceState(service, state, ttl);
    }

    method ClearOverride(service: string)
      requires Valid()
      modifies this`instances, instances.Values, storage`states
      ensures Valid() && DelegatedOnce(service, ClearOverrideCall(service))
      ensures storage.states == old(storage.states) - {service}
    {
      var cb := Resolve(service);
      cb.ClearOverride(service);
    }
  }
}
