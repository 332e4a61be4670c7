/** The circuit breaker engine of src/CircuitBreaker.php. Settings are a
    PHP array merged over three defaults; `canPass` turns the adapter's
    state into pass, block or a CircuitException; `failed` records a
    failure and then decides, from the count and the state it reads back,
    whether to open the circuit, which writes both the open and the
    half-open marker; `succeed` closes the circuit. */
module Engine {
  import opened Base
  import opened RedisStore
  import opened Contract
  import RedisAdapter
  import LegacyRedisAdapter
  import KeyHelper

  /** A setting value: the config holds booleans and integers. */
  datatype SettingValue = BoolSetting(b: bool) | IntSetting(i: int)

  type SettingsMap = map<string, SettingValue>

  const EXCEPTIONS_ON: string := "exceptions_on"
  const TIME_OUT_OPEN: string := "time_out_open"
  const TIME_OUT_HALF_OPEN: string := "time_out_half_open"
  const TOTAL_FAILURES: string := "total_failures"

  const DEFAULT_SETTINGS: SettingsMap :=
    map[EXCEPTIONS_ON := BoolSetting(true), TIME_OUT_OPEN := IntSetting(30), TIME_OUT_HALF_OPEN := IntSetting(20)]

  /** Settings after the merge: the three defaulted keys are always there. */
  predicate HasDefaultedKeys(m: SettingsMap)
  {
    EXCEPTIONS_ON in m && TIME_OUT_OPEN in m && TIME_OUT_HALF_OPEN in m
  }

  type Settings = m: SettingsMap | HasDefaultedKeys(m) witness DEFAULT_SETTINGS

  /** `array_merge($defaultSettings, $settings)`: every given key wins, every
      other default key stays, nothing else appears. */
  function MergeSettings(given: SettingsMap): (m: Settings)
    ensures forall k :: k in m <==> k in DEFAULT_SETTINGS || k in given
    ensures forall k :: k in given ==> m[k] == given[k]
    ensures forall k :: k in DEFAULT_SETTINGS && k !in given ==> m[k] == DEFAULT_SETTINGS[k]
  {
    DEFAULT_SETTINGS + given
  }

  /** A setting passed where PHP expects an int: `true` is 1, `false` 0. */
  function AsInt(v: SettingValue): int
  {
    match v
    case BoolSetting(b) => if b then 1 else 0
    case IntSetting(i) => i
  }

  /** `$settings['exceptions_on'] === true`: only the boolean true. */
  predicate ExceptionsOn(settings: Settings)
  {
    settings[EXCEPTIONS_ON] == BoolSetting(true)
  }

  function TimeOutOpen(settings: Settings): int
  {
    AsInt(settings[TIME_OUT_OPEN])
  }

  /** The value written to the half-open marker: `time_out_open +
      time_out_half_open`. */
  function TimeOutHalfOpenMarker(settings: Settings): int
  {
    AsInt(settings[TIME_OUT_OPEN]) + AsInt(settings[TIME_OUT_HALF_OPEN])
  }

  /** `$totalFailures >= $settings['total_failures']` under PHP 8 rules: a
      missing key reads as null, and comparing with null or a boolean
      compares truth values, so a missing threshold is always reached and
      `true` is reached by any non-zero count. */
  predicate ReachesThreshold(total: int, settings: Settings)
  {
    if TOTAL_FAILURES !in settings then true
    else match settings[TOTAL_FAILURES]
      case IntSetting(i) => total >= i
      case BoolSetting(b) => !b || total != 0
  }

  /** The open condition of `failed`. */
  predicate ShouldOpen(state: CircuitState, total: int, settings: Settings)
  {
    state == HALF_OPEN || ReachesThreshold(total, settings)
  }

  /** What `canPass` returns or raises for the state it reads. */
  function CanPassDecision(state: CircuitState, settings: Settings, serviceName: string): Result<bool>
  {
    if state == OPEN then
      if ExceptionsOn(settings) then Err(CircuitException(serviceName, "The circuit is open."))
      else Ok(false)
    else Ok(true)
  }

  /** The table after `failed` when every write is carried out. */
  function FailedTable(a: CircuitBreakerAdapter, t: Table, settings: Settings, serviceName: string, numberOfFailures: int, now: nat): Table
  {
    var recorded := a.AddFailureIn(t, serviceName, numberOfFailures, now);
    if ShouldOpen(a.StateIn(recorded, serviceName), a.TotalIn(recorded, serviceName), settings) then
      a.HalfOpenIn(a.OpenIn(recorded, serviceName, TimeOutOpen(settings)), serviceName, TimeOutHalfOpenMarker(settings))
    else recorded
  }

  /** `canPass` lets the call through exactly when the state is not OPEN;
      on OPEN it raises exactly when `exceptions_on` is the boolean true,
      naming the service. */
  lemma CanPassBlocksOnlyOpen(state: CircuitState, settings: Settings, serviceName: string)
    ensures CanPassDecision(state, settings, serviceName) == Ok(true) <==> state != OPEN
    ensures CanPassDecision(state, settings, serviceName) == Ok(false) <==> state == OPEN && !ExceptionsOn(settings)
    ensures CanPassDecision(state, settings, serviceName).Err? <==> state == OPEN && ExceptionsOn(settings)
    ensures CanPassDecision(state, settings, serviceName).Err? ==>
      CanPassDecision(state, settings, serviceName).error == CircuitException(serviceName, "The circuit is open.")
  {
  }

  /** Without overrides the circuit raises on OPEN, stays open for 30
      seconds and half-open until 50. */
  lemma DefaultSettings()
    ensures var s := MergeSettings(map[]);
      ExceptionsOn(s) && TimeOutOpen(s) == 30 && TimeOutHalfOpenMarker(s) == 50 && TOTAL_FAILURES !in s
  {
  }

  /** `failed` writes the two markers, with the configured timeouts, when
      the open condition holds on the state and count read back after the
      failure was recorded, and writes nothing beyond the failure
      otherwise. */
  lemma FailedOpensExactlyWhen(a: CircuitBreakerAdapter, t: Table, settings: Settings, s: string, n: int, now: nat)
    ensures var recorded := a.AddFailureIn(t, s, n, now);
      FailedTable(a, t, settings, s, n, now) ==
        if a.StateIn(t, s) == HALF_OPEN || ReachesThreshold(a.TotalIn(recorded, s), settings)
        then a.HalfOpenIn(a.OpenIn(recorded, s, TimeOutOpen(settings)), s, TimeOutHalfOpenMarker(settings))
        else recorded
  {
    AddFailureKeepsState(a, t, s, s, n, now);
  }

  /** Opening leaves both markers set, and the half-open marker is read
      first: right after opening the circuit reports HALF_OPEN and
      `canPass` lets calls through. */
  lemma OpeningReportsHalfOpen(a: CircuitBreakerAdapter, t: Table, settings: Settings, s: string, n: int, now: nat)
    requires TimeOutHalfOpenMarker(settings) != 0
    requires ShouldOpen(a.StateIn(t, s), a.TotalIn(a.AddFailureIn(t, s, n, now), s), settings)
    ensures a.StateIn(FailedTable(a, t, settings, s, n, now), s) == HALF_OPEN
    ensures CanPassDecision(a.StateIn(FailedTable(a, t, settings, s, n, now), s), settings, s) == Ok(true)
  {
    var recorded := a.AddFailureIn(t, s, n, now);
    AddFailureKeepsState(a, t, s, s, n, now);
    HalfOpenTakesPrecedence(a, recorded, s, TimeOutOpen(settings), TimeOutHalfOpenMarker(settings));
  }

  /** A circuit reported OPEN whose count stays below the threshold is not
      opened again and stays OPEN. */
  lemma OpenWithLowCountStaysOpen(a: CircuitBreakerAdapter, t: Table, settings: Settings, s: string, n: int, now: nat)
    requires a.StateIn(t, s) == OPEN
    requires !ReachesThreshold(a.TotalIn(a.AddFailureIn(t, s, n, now), s), settings)
    ensures FailedTable(a, t, settings, s, n, now) == a.AddFailureIn(t, s, n, now)
    ensures a.StateIn(FailedTable(a, t, settings, s, n, now), s) == OPEN
  {
    AddFailureKeepsState(a, t, s, s, n, now);
  }

  /** With no `total_failures` setting every failure opens the circuit. */
  lemma MissingThresholdOpensOnEveryFailure(a: CircuitBreakerAdapter, t: Table, settings: Settings, s: string, n: int, now: nat)
    requires TOTAL_FAILURES !in settings && TimeOutHalfOpenMarker(settings) != 0
    ensures a.StateIn(FailedTable(a, t, settings, s, n, now), s) == HALF_OPEN
  {
    OpeningReportsHalfOpen(a, t, settings, s, n, now);
  }

  /** A failure of one service leaves another service's state alone. */
  lemma FailedIsolatesState(a: CircuitBreakerAdapter, t: Table, settings: Settings, s1: string, s2: string, n: int, now: nat)
    requires s1 != s2
    ensures a.StateIn(FailedTable(a, t, settings, s1, n, now), s2) == a.StateIn(t, s2)
  {
    var recorded := a.AddFailureIn(t, s1, n, now);
    AddFailureKeepsState(a, t, s1, s2, n, now);
    var afterOpen := a.OpenIn(recorded, s1, TimeOutOpen(settings));
    OtherServiceStateIsolated(a, recorded, s1, s2, TimeOutOpen(settings));
    OtherServiceStateIsolated(a, afterOpen, s1, s2, TimeOutHalfOpenMarker(settings));
  }

  /** With the older adapter, on a circuit that is not half-open and an
      integer threshold, `failed(s, n)` opens exactly when the counter
      plus the positive part of n reaches the threshold. */
  lemma LegacyOpensAtThreshold(a: CircuitBreakerAdapter, t: Table, settings: Settings, s: string, n: int, now: nat, threshold: int)
    requires a.LegacyRedis?
    requires a.StateIn(t, s) != HALF_OPEN
    requires TOTAL_FAILURES in settings && settings[TOTAL_FAILURES] == IntSetting(threshold)
    ensures var recorded := a.AddFailureIn(t, s, n, now);
      ShouldOpen(a.StateIn(recorded, s), a.TotalIn(recorded, s), settings)
      <==> LegacyRedisAdapter.TotalFailures(t, s) + (if n >= 1 then n else 0) >= threshold
  {
    LegacyRedisAdapter.AddFailureCount(t, s, n);
  }

  /** With the newer adapter, from an empty store, two failures in the same
      second count once: with a threshold of 2 the circuit stays CLOSED. */
  lemma SameSecondFailuresDoNotOpen(a: CircuitBreakerAdapter, settings: Settings, s: string, now: nat)
    requires a.Redis?
    requires TOTAL_FAILURES in settings && settings[TOTAL_FAILURES] == IntSetting(2)
    ensures var once := FailedTable(a, map[], settings, s, 1, now);
      once == a.AddFailureIn(map[], s, 1, now) &&
      FailedTable(a, once, settings, s, 1, now) == once &&
      a.StateIn(FailedTable(a, once, settings, s, 1, now), s) == CLOSED
  {
    var once := a.AddFailureIn(map[], s, 1, now);
    RedisAdapter.AddFailureCount(map[], s, 1, now);
    RedisAdapter.AddFailureKeepsState(map[], s, s, 1, now);
    assert Matching(map[], KeyHelper.KeyTotalFailuresToSearch(s)) == {};
    RedisAdapter.SameSecondCountsOnce(map[], s, 1, 1, now);
    RedisAdapter.AddFailureKeepsState(once, s, s, 1, now);
    assert once[KeyHelper.KeyTotalFailuresToStore(s, now) := 1] == once;
  }

  /** After `succeed`, whatever the state was, `canPass` lets calls
      through under any settings. */
  lemma SucceedCloses(a: CircuitBreakerAdapter, t: Table, settings: Settings, s: string)
    ensures CanPassDecision(a.StateIn(a.CloseIn(t, s), s), settings, s) == Ok(true)
  {
    CloseGivesClosed(a, t, s);
  }

  class CircuitBreaker {
    const circuitBreaker: CircuitBreakerAdapter
    const settings: Settings

    constructor (circuitBreaker: CircuitBreakerAdapter, settings: SettingsMap)
      ensures this.circuitBreaker == circuitBreaker && this.settings == MergeSettings(settings)
    {
      this.circuitBreaker := circuitBreaker;
      this.settings := MergeSettings(settings);
    }

    /** Method `canPass`. */
    method CanPass(serviceName: string) returns (r: Result<bool>)
      ensures r == CanPassDecision(circuitBreaker.StateIn(circuitBreaker.Client().table, serviceName), settings, serviceName)
    {
      var circuitState := circuitBreaker.GetState(serviceName);
      if circuitState == OPEN {
        if settings[EXCEPTIONS_ON] == BoolSetting(true) {
          return Err(CircuitException(serviceName, "The circuit is open."));
        }
        return Ok(false);
      }
      return Ok(true);
    }

    /** Method `failed`; an AdapterException raised by a write ends it. */
    method Failed(serviceName: string, numberOfFailures: int, now: nat) returns (r: Result<()>)
      modifies circuitBreaker.Client()`table
      ensures circuitBreaker.Client().available ==> (r == Ok(()) &&
        circuitBreaker.Client().table == FailedTable(circuitBreaker, old(circuitBreaker.Client().table), settings, serviceName, numberOfFailures, now))
      ensures !circuitBreaker.Client().available ==>
        (r == circuitBreaker.WriteRefused(circuitBreaker.Client().lastError) && circuitBreaker.Client().table == old(circuitBreaker.Client().table))
    {
      r := circuitBreaker.AddFailure(serviceName, numberOfFailures, now);
      if r.Err? {
        return;
      }
      var totalFailures := circuitBreaker.GetTotalFailures(serviceName);
      var circuitState := circuitBreaker.GetState(serviceName);
      if circuitState == HALF_OPEN || ReachesThreshold(totalFailures, settings) {
        var timeOutOpen := AsInt(settings[TIME_OUT_OPEN]);
        var timeOutHalfOpen := AsInt(settings[TIME_OUT_HALF_OPEN]);
        r := circuitBreaker.OpenCircuit(serviceName, timeOutOpen);
        if r.Err? {
          return;
        }
        r := circuitBreaker.SetCircuitHalfOpen(serviceName, timeOutOpen + timeOutHalfOpen);
      }
    }

    /** Method `succeed`. */
    method Succeed(serviceName: string) returns (r: Result<()>)
      modifies circuitBreaker.Client()`table
      ensures circuitBreaker.Client().available ==> (r == Ok(()) &&
        circuitBreaker.Client().table == circuitBreaker.CloseIn(old(circuitBreaker.Client().table), serviceName))
      ensures !circuitBreaker.Client().available ==>
        (r == circuitBreaker.WriteRefused(circuitBreaker.Client().lastError) && circuitBreaker.Client().table == old(circuitBreaker.Client().table))
    {
      r := circuitBreaker.CloseCircuit(serviceName);
    }
  }
}
