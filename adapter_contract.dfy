/** The adapter contract of src/Contract/CircuitBreakerAdapter.php: the six
    operations the engine drives. The abstract class becomes a datatype
    with one case per concrete adapter; each operation dispatches to the
    adapter of that case. The functions say, per case, what an operation
    reads from or leaves in the key table. */
module Contract {
  import opened Base
  import opened RedisStore
  import RedisAdapter
  import LegacyRedisAdapter

  datatype CircuitBreakerAdapter =
    | Redis(keyed: RedisAdapter.RedisCircuitBreaker)
    | LegacyRedis(counter: LegacyRedisAdapter.RedisCircuitBreaker)
  {
    /** The Redis client the adapter drives. */
    function Client(): RedisClient
    {
      match this
      case Redis(a) => a.redis
      case LegacyRedis(a) => a.redis
    }

    function StateIn(t: Table, serviceName: string): CircuitState
    {
      match this
      case Redis(_) => RedisAdapter.State(t, serviceName)
      case LegacyRedis(_) => LegacyRedisAdapter.State(t, serviceName)
    }

    function TotalIn(t: Table, serviceName: string): int
    {
      match this
      case Redis(_) => RedisAdapter.TotalFailures(t, serviceName)
      case LegacyRedis(_) => LegacyRedisAdapter.TotalFailures(t, serviceName)
    }

    /** The table after `addFailure(serviceName, numberOfFailures)`: the
        newer adapter stores the number as the value of the key of the
        second `now`; the older one adds it to its counter. */
    function AddFailureIn(t: Table, serviceName: string, numberOfFailures: int, now: nat): Table
    {
      match this
      case Redis(_) => RedisAdapter.AddFailureTable(t, serviceName, numberOfFailures, now)
      case LegacyRedis(_) => LegacyRedisAdapter.AddFailureTable(t, serviceName, numberOfFailures)
    }

    function OpenIn(t: Table, serviceName: string, timeOpen: int): Table
    {
      match this
      case Redis(_) => RedisAdapter.OpenTable(t, serviceName, timeOpen)
      case LegacyRedis(_) => LegacyRedisAdapter.OpenTable(t, serviceName, timeOpen)
    }

    function HalfOpenIn(t: Table, serviceName: string, timeOpen: int): Table
    {
      match this
      case Redis(_) => RedisAdapter.HalfOpenTable(t, serviceName, timeOpen)
      case LegacyRedis(_) => LegacyRedisAdapter.HalfOpenTable(t, serviceName, timeOpen)
    }

    function CloseIn(t: Table, serviceName: string): Table
    {
      match this
      case Redis(_) => RedisAdapter.CloseTable(t, serviceName)
      case LegacyRedis(_) => LegacyRedisAdapter.CloseTable(t, serviceName)
    }

    /** What a refused write yields: the newer adapter raises, the older
        one carries on as if the write had happened. */
    function WriteRefused(lastError: string): Result<()>
    {
      if Redis? then Err(AdapterException(lastError)) else Ok(())
    }

    method GetState(serviceName: string) returns (state: CircuitState)
      ensures state == StateIn(Client().table, serviceName)
    {
      match this
      case Redis(a) => state := a.GetState(serviceName);
      case LegacyRedis(a) => state := a.GetState(serviceName);
    }

    method GetTotalFailures(serviceName: string) returns (total: int)
      ensures total == TotalIn(Client().table, serviceName)
    {
      match this
      case Redis(a) => total := a.GetTotalFailures(serviceName);
      case LegacyRedis(a) => total := a.GetTotalFailures(serviceName);
    }

    method AddFailure(serviceName: string, numberOfFailures: int, now: nat) returns (r: Result<()>)
      modifies Client()`table
      ensures Client().available ==> r == Ok(()) && Client().table == AddFailureIn(old(Client().table), serviceName, numberOfFailures, now)
      ensures !Client().available ==> r == WriteRefused(Client().lastError) && Client().table == old(Client().table)
    {
      match this
      case Redis(a) => r := a.AddFailure(serviceName, numberOfFailures, now);
      case LegacyRedis(a) => a.AddFailure(serviceName, numberOfFailures); r := Ok(());
    }

    method OpenCircuit(serviceName: string, timeOpen: int) returns (r: Result<()>)
      modifies Client()`table
      ensures Client().available ==> r == Ok(()) && Client().table == OpenIn(old(Client().table), serviceName, timeOpen)
      ensures !Client().available ==> r == WriteRefused(Client().lastError) && Client().table == old(Client().table)
    {
      match this
      case Redis(a) => r := a.OpenCircuit(serviceName, timeOpen);
      case LegacyRedis(a) => a.OpenCircuit(serviceName, timeOpen); r := Ok(());
    }

    method SetCircuitHalfOpen(serviceName: string, timeOpen: int) returns (r: Result<()>)
      modifies Client()`table
      ensures Client().available ==> r == Ok(()) && Client().table == HalfOpenIn(old(Client().table), serviceName, timeOpen)
      ensures !Client().available ==> r == WriteRefused(Client().lastError) && Client().table == old(Client().table)
    {
      match this
      case Redis(a) => r := a.SetCircuitHalfOpen(serviceName, timeOpen);
      case LegacyRedis(a) => a.SetCircuitHalfOpen(serviceName, timeOpen); r := Ok(());
    }

    method CloseCircuit(serviceName: string) returns (r: Result<()>)
      modifies Client()`table
      ensures Client().available ==> r == Ok(()) && Client().table == CloseIn(old(Client().table), serviceName)
      ensures !Client().available ==> r == WriteRefused(Client().lastError) && Client().table == old(Client().table)
    {
      match this
      case Redis(a) => r := a.CloseCircuit(serviceName);
      case LegacyRedis(a) => a.CloseCircuit(serviceName); r := Ok(());
    }
  }

  /** With a non-empty half-open marker the state is HALF_OPEN whatever the
      open marker holds, in either adapter. */
  lemma HalfOpenTakesPrecedence(a: CircuitBreakerAdapter, t: Table, serviceName: string, openValue: int, halfOpenValue: int)
    requires halfOpenValue != 0
    ensures a.StateIn(a.HalfOpenIn(a.OpenIn(t, serviceName, openValue), serviceName, halfOpenValue), serviceName) == HALF_OPEN
  {
    match a
    case Redis(_) => RedisAdapter.HalfOpenTakesPrecedence(t, serviceName, openValue, halfOpenValue);
    case LegacyRedis(_) => LegacyRedisAdapter.HalfOpenTakesPrecedence(t, serviceName, openValue, halfOpenValue);
  }

  /** Recording failures never changes any service's state, in either
      adapter. */
  lemma AddFailureKeepsState(a: CircuitBreakerAdapter, t: Table, s1: string, s2: string, n: int, now: nat)
    ensures a.StateIn(a.AddFailureIn(t, s1, n, now), s2) == a.StateIn(t, s2)
  {
    match a
    case Redis(_) => RedisAdapter.AddFailureKeepsState(t, s1, s2, n, now);
    case LegacyRedis(_) =>
      if s1 == s2 {
        LegacyRedisAdapter.AddFailureCount(t, s1, n);
      } else {
        LegacyRedisAdapter.OtherServiceIsolated(t, s1, s2, n, 0);
      }
  }

  /** A close leaves the service CLOSED, in either adapter. */
  lemma CloseGivesClosed(a: CircuitBreakerAdapter, t: Table, serviceName: string)
    ensures a.StateIn(a.CloseIn(t, serviceName), serviceName) == CLOSED
  {
    match a
    case Redis(_) => RedisAdapter.CloseGivesClosed(t, serviceName);
    case LegacyRedis(_) => LegacyRedisAdapter.CloseResets(t, serviceName);
  }

  /** Marker writes and closes of one service leave another service's
      state alone, in either adapter. */
  lemma OtherServiceStateIsolated(a: CircuitBreakerAdapter, t: Table, s1: string, s2: string, v: int)
    requires s1 != s2
    ensures a.StateIn(a.OpenIn(t, s1, v), s2) == a.StateIn(t, s2)
    ensures a.StateIn(a.HalfOpenIn(t, s1, v), s2) == a.StateIn(t, s2)
    ensures a.StateIn(a.CloseIn(t, s1), s2) == a.StateIn(t, s2)
  {
    match a
    case Redis(_) => RedisAdapter.OtherServiceStateIsolated(t, s1, s2, v);
    case LegacyRedis(_) => LegacyRedisAdapter.OtherServiceIsolated(t, s1, s2, 0, v);
  }
}
