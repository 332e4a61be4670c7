/** The older Redis adapter (src/Adapter/RedisCircuitBreaker.php). Keys are
    `circuit_breaker:<service>:<identifier>`, the failure count is one
    counter raised by INCR, and write results are ignored: a write the store
    refuses is silently lost. */
module LegacyRedisAdapter {
  import opened Base
  import opened RedisStore

  const OPEN_ID: string := "OPEN"
  const HALF_OPEN_ID: string := "HALF_OPEN"
  const TOTAL_FAILURES_ID: string := "total_failures"

  /** Private method `key`: the fixed prefix, the service name, a colon and
      the identifier, each recoverable at its position. */
  function Key(serviceName: string, identifier: string): (k: string)
    ensures |k| == 17 + |serviceName| + |identifier|
    ensures k[..16] == "circuit_breaker:"
    ensures k[16..16 + |serviceName|] == serviceName
    ensures k[16 + |serviceName|] == ':'
    ensures k[17 + |serviceName|..] == identifier
  {
    "circuit_breaker:" + serviceName + ":" + identifier
  }

  /** The state `getState` reports, half-open marker first. */
  function State(t: Table, serviceName: string): CircuitState
  {
    if Marked(t, Key(serviceName, HALF_OPEN_ID)) then HALF_OPEN
    else if Marked(t, Key(serviceName, OPEN_ID)) then OPEN
    else CLOSED
  }

  /** The count `getTotalFailures` reports: `(int)` of the counter. */
  function TotalFailures(t: Table, serviceName: string): int
  {
    IntValue(t, Key(serviceName, TOTAL_FAILURES_ID))
  }

  /** The table after `addFailure(s, n)`: n INCRs of the counter, none
      when n is below 1. */
  function AddFailureTable(t: Table, serviceName: string, numberOfFailures: int): Table
  {
    var k := Key(serviceName, TOTAL_FAILURES_ID);
    if numberOfFailures >= 1 then t[k := IntValue(t, k) + numberOfFailures] else t
  }

  function OpenTable(t: Table, serviceName: string, timeOpen: int): Table
  {
    t[Key(serviceName, OPEN_ID) := timeOpen]
  }

  function HalfOpenTable(t: Table, serviceName: string, timeOpen: int): Table
  {
    t[Key(serviceName, HALF_OPEN_ID) := timeOpen]
  }

  function CloseTable(t: Table, serviceName: string): Table
  {
    t - {Key(serviceName, OPEN_ID), Key(serviceName, HALF_OPEN_ID), Key(serviceName, TOTAL_FAILURES_ID)}
  }

  /** Every key the adapter touches for a service. */
  function ServiceKeys(serviceName: string): set<string>
  {
    {Key(serviceName, OPEN_ID), Key(serviceName, HALF_OPEN_ID), Key(serviceName, TOTAL_FAILURES_ID)}
  }

  /** Keys of one service with different identifiers differ, whatever the
      names hold: the identifiers end differently. */
  lemma IdentifiersSeparateKeys(s1: string, s2: string)
    ensures Key(s1, OPEN_ID) != Key(s2, HALF_OPEN_ID)
    ensures Key(s1, OPEN_ID) != Key(s2, TOTAL_FAILURES_ID)
    ensures Key(s1, HALF_OPEN_ID) != Key(s2, TOTAL_FAILURES_ID)
  {
    var o, h, f := Key(s1, OPEN_ID), Key(s2, HALF_OPEN_ID), Key(s2, TOTAL_FAILURES_ID);
    var h1 := Key(s1, HALF_OPEN_ID);
    assert o[|o| - 5] == ':' && h[|h| - 5] == '_';
    assert o[|o| - 1] == 'N' && h1[|h1| - 1] == 'N' && f[|f| - 1] == 's';
  }

  lemma StripName(s1: string, s2: string, id: string)
    requires Key(s1, id) == Key(s2, id)
    ensures s1 == s2
  {
    var pre, suf := "circuit_breaker:", ":" + id;
    assert Key(s1, id) == pre + s1 + suf && Key(s2, id) == pre + s2 + suf;
    var k := Key(s1, id);
    assert |s1| == |s2|;
    assert s1 == k[|pre|..|pre| + |s1|];
    assert s2 == (pre + s2 + suf)[|pre|..|pre| + |s2|];
  }

  /** Keys of distinct services never coincide, for any service names:
      each service owns its three keys. */
  lemma ServiceKeysDisjoint(s1: string, s2: string)
    requires s1 != s2
    ensures ServiceKeys(s1) !! ServiceKeys(s2)
  {
    IdentifiersSeparateKeys(s1, s2);
    IdentifiersSeparateKeys(s2, s1);
    if Key(s1, OPEN_ID) == Key(s2, OPEN_ID) {
      StripName(s1, s2, OPEN_ID);
    }
    if Key(s1, HALF_OPEN_ID) == Key(s2, HALF_OPEN_ID) {
      StripName(s1, s2, HALF_OPEN_ID);
    }
    if Key(s1, TOTAL_FAILURES_ID) == Key(s2, TOTAL_FAILURES_ID) {
      StripName(s1, s2, TOTAL_FAILURES_ID);
    }
  }

  /** Every operation on a service changes only that service's keys. */
  lemma OnlyOwnKeysChange(t: Table, serviceName: string, n: int, v: int, k: string)
    requires k !in ServiceKeys(serviceName)
    ensures Lookup(AddFailureTable(t, serviceName, n), k) == Lookup(t, k)
    ensures Lookup(OpenTable(t, serviceName, v), k) == Lookup(t, k)
    ensures Lookup(HalfOpenTable(t, serviceName, v), k) == Lookup(t, k)
    ensures Lookup(CloseTable(t, serviceName), k) == Lookup(t, k)
  {
  }

  /** Operations on one service leave another service's state and count
      alone. */
  lemma OtherServiceIsolated(t: Table, s1: string, s2: string, n: int, v: int)
    requires s1 != s2
    ensures State(AddFailureTable(t, s1, n), s2) == State(t, s2)
    ensures State(OpenTable(t, s1, v), s2) == State(t, s2)
    ensures State(HalfOpenTable(t, s1, v), s2) == State(t, s2)
    ensures State(CloseTable(t, s1), s2) == State(t, s2)
    ensures TotalFailures(AddFailureTable(t, s1, n), s2) == TotalFailures(t, s2)
    ensures TotalFailures(OpenTable(t, s1, v), s2) == TotalFailures(t, s2)
    ensures TotalFailures(HalfOpenTable(t, s1, v), s2) == TotalFailures(t, s2)
    ensures TotalFailures(CloseTable(t, s1), s2) == TotalFailures(t, s2)
  {
    ServiceKeysDisjoint(s1, s2);
    assert Key(s2, OPEN_ID) in ServiceKeys(s2);
    assert Key(s2, HALF_OPEN_ID) in ServiceKeys(s2);
    assert Key(s2, TOTAL_FAILURES_ID) in ServiceKeys(s2);
    OnlyOwnKeysChange(t, s1, n, v, Key(s2, OPEN_ID));
    OnlyOwnKeysChange(t, s1, n, v, Key(s2, HALF_OPEN_ID));
    OnlyOwnKeysChange(t, s1, n, v, Key(s2, TOTAL_FAILURES_ID));
  }

  /** `addFailure(s, n)` raises the counter by n when n is positive and
      leaves it alone otherwise, and never changes the state. */
  lemma AddFailureCount(t: Table, s: string, n: int)
    ensures TotalFailures(AddFailureTable(t, s, n), s) == TotalFailures(t, s) + (if n >= 1 then n else 0)
    ensures State(AddFailureTable(t, s, n), s) == State(t, s)
  {
    IdentifiersSeparateKeys(s, s);
    OnlyOwnMarkers(t, s, Key(s, TOTAL_FAILURES_ID), IntValue(t, Key(s, TOTAL_FAILURES_ID)) + n);
  }

  lemma OnlyOwnMarkers(t: Table, s: string, k: string, v: int)
    requires k != Key(s, OPEN_ID) && k != Key(s, HALF_OPEN_ID)
    ensures State(t[k := v], s) == State(t, s)
  {
    assert Lookup(t[k := v], Key(s, OPEN_ID)) == Lookup(t, Key(s, OPEN_ID));
    assert Lookup(t[k := v], Key(s, HALF_OPEN_ID)) == Lookup(t, Key(s, HALF_OPEN_ID));
  }

  /** With both markers set, a non-empty half-open marker wins. */
  lemma HalfOpenTakesPrecedence(t: Table, serviceName: string, openValue: int, halfOpenValue: int)
    requires halfOpenValue != 0
    ensures State(HalfOpenTable(OpenTable(t, serviceName, openValue), serviceName, halfOpenValue), serviceName) == HALF_OPEN
    ensures State(HalfOpenTable(OpenTable(t, serviceName, openValue), serviceName, 0), serviceName)
         == (if openValue != 0 then OPEN else CLOSED)
  {
    IdentifiersSeparateKeys(serviceName, serviceName);
  }

  /** After a close the service reads CLOSED with no failures. */
  lemma CloseResets(t: Table, serviceName: string)
    ensures State(CloseTable(t, serviceName), serviceName) == CLOSED
    ensures TotalFailures(CloseTable(t, serviceName), serviceName) == 0
  {
  }

  class RedisCircuitBreaker {
    const redis: RedisClient

    constructor (redis: RedisClient)
      ensures this.redis == redis
    {
      this.redis := redis;
    }

    /** Method `getState`. */
    method GetState(serviceName: string) returns (state: CircuitState)
      ensures state == State(redis.table, serviceName)
    {
      state := CLOSED;
      var halfOpen := redis.Get(Key(serviceName, HALF_OPEN_ID));
      var open := redis.Get(Key(serviceName, OPEN_ID));
      if !Empty(halfOpen) {
        state := HALF_OPEN;
      } else if !Empty(open) {
        state := OPEN;
      }
    }

    /** Method `addFailure`: one INCR per failure, results ignored. */
    method AddFailure(serviceName: string, numberOfFailures: int)
      modifies redis`table
      ensures redis.table == if redis.available then AddFailureTable(old(redis.table), serviceName, numberOfFailures) else old(redis.table)
    {
      var key := Key(serviceName, TOTAL_FAILURES_ID);
      var x := 1;
      while x <= numberOfFailures
        invariant 1 <= x <= if numberOfFailures >= 1 then numberOfFailures + 1 else 1
        invariant redis.table == if redis.available && x > 1
          then old(redis.table)[key := IntValue(old(redis.table), key) + (x - 1)]
          else old(redis.table)
        decreases numberOfFailures + 1 - x
      {
        var incremented := redis.Incr(key);
        x := x + 1;
      }
    }

    /** Method `getTotalFailures`. */
    method GetTotalFailures(serviceName: string) returns (total: int)
      ensures total == TotalFailures(redis.table, serviceName)
    {
      var v := redis.Get(Key(serviceName, TOTAL_FAILURES_ID));
      total := if v.Some? then v.value else 0;
    }

    /** Method `openCircuit`. */
    method OpenCircuit(serviceName: string, timeOpen: int)
      modifies redis`table
      ensures redis.table == if redis.available then OpenTable(old(redis.table), serviceName, timeOpen) else old(redis.table)
    {
      var inserted := redis.Set(Key(serviceName, OPEN_ID), timeOpen);
    }

    /** Method `closeCircuit`. */
    method CloseCircuit(serviceName: string)
      modifies redis`table
      ensures redis.table == if redis.available then CloseTable(old(redis.table), serviceName) else old(redis.table)
    {
      var keys := [Key(serviceName, OPEN_ID), Key(serviceName, HALF_OPEN_ID), Key(serviceName, TOTAL_FAILURES_ID)];
      var deleted := redis.Delete(keys);
      assert (set i | 0 <= i < |keys| :: keys[i]) == {keys[0], keys[1], keys[2]};
    }

    /** Method `setCircuitHalfOpen`. */
    method SetCircuitHalfOpen(serviceName: string, timeOpen: int)
      modifies redis`table
      ensures redis.table == if redis.available then HalfOpenTable(old(redis.table), serviceName, timeOpen) else old(redis.table)
    {
      var inserted := redis.Set(Key(serviceName, HALF_OPEN_ID), timeOpen);
    }
  }
}
