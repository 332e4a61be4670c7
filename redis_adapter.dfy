/** The newer Redis adapter (src/Adapter/Redis/RedisCircuitBreaker.php).
    Each failure is stored under its own time-stamped key and the failure
    count is the number of keys KEYS returns for the service's pattern. A
    write the store refuses raises AdapterException with the store's last
    error. The functions below say what each operation leaves in the key
    table; the class drives a RedisClient and is proved against them. */
module RedisAdapter {
  import opened Base
  import opened RedisStore
  import opened KeyHelper

  /** The state `getState` reports: the half-open marker is consulted
      before the open marker. */
  function State(t: Table, serviceName: string): CircuitState
  {
    if Marked(t, KeyHalfOpen(serviceName)) then HALF_OPEN
    else if Marked(t, KeyOpen(serviceName)) then OPEN
    else CLOSED
  }

  /** The count `getTotalFailures` reports. */
  function TotalFailures(t: Table, serviceName: string): nat
  {
    |Matching(t, KeyTotalFailuresToSearch(serviceName))|
  }

  /** The table after a successful `addFailure`: one key, stamped with the
      second `now`, holds the time window. */
  function AddFailureTable(t: Table, serviceName: string, timeWindow: int, now: nat): Table
  {
    t[KeyTotalFailuresToStore(serviceName, now) := timeWindow]
  }

  function OpenTable(t: Table, serviceName: string, timeOpen: int): Table
  {
    t[KeyOpen(serviceName) := timeOpen]
  }

  function HalfOpenTable(t: Table, serviceName: string, timeOpen: int): Table
  {
    t[KeyHalfOpen(serviceName) := timeOpen]
  }

  /** The table after a successful `closeCircuit`: DEL of the open key,
      the half-open key and the search pattern taken as a literal key. */
  function CloseTable(t: Table, serviceName: string): Table
  {
    t - {KeyOpen(serviceName), KeyHalfOpen(serviceName), KeyTotalFailuresToSearch(serviceName)}
  }

  /** A key that is neither marker of a service leaves its state alone. */
  lemma StateIgnoresOtherKeys(t: Table, serviceName: string, k: string, v: int)
    requires k != KeyOpen(serviceName) && k != KeyHalfOpen(serviceName)
    ensures State(t[k := v], serviceName) == State(t, serviceName)
  {
    assert Lookup(t[k := v], KeyOpen(serviceName)) == Lookup(t, KeyOpen(serviceName));
    assert Lookup(t[k := v], KeyHalfOpen(serviceName)) == Lookup(t, KeyHalfOpen(serviceName));
  }

  /** With both markers holding a non-empty value the state is HALF_OPEN;
      a marker holding 0 counts as absent. */
  lemma HalfOpenTakesPrecedence(t: Table, serviceName: string, openValue: int, halfOpenValue: int)
    requires halfOpenValue != 0
    ensures State(HalfOpenTable(OpenTable(t, serviceName, openValue), serviceName, halfOpenValue), serviceName) == HALF_OPEN
    ensures State(HalfOpenTable(OpenTable(t, serviceName, openValue), serviceName, 0), serviceName)
         == (if openValue != 0 then OPEN else CLOSED)
  {
    OpenIsNotHalfOpen(serviceName, serviceName);
  }

  /** Recording a failure changes no service's state. */
  lemma AddFailureKeepsState(t: Table, s1: string, s2: string, timeWindow: int, now: nat)
    ensures State(AddFailureTable(t, s1, timeWindow, now), s2) == State(t, s2)
  {
    MarkerKeysAreNoOtherKind(s2, s1, now);
    StateIgnoresOtherKeys(t, s2, KeyTotalFailuresToStore(s1, now), timeWindow);
  }

  /** A failure in a second with no stored failure yet adds one to the
      count; a second failure in the same second adds nothing. */
  lemma AddFailureCount(t: Table, serviceName: string, timeWindow: int, now: nat)
    ensures TotalFailures(AddFailureTable(t, serviceName, timeWindow, now), serviceName)
         == TotalFailures(t, serviceName) + (if KeyTotalFailuresToStore(serviceName, now) in t then 0 else 1)
  {
    StoreKeyMatchesSearch(serviceName, now);
    CountAfterSet(t, KeyTotalFailuresToSearch(serviceName), KeyTotalFailuresToStore(serviceName, now), timeWindow);
  }

  /** Two failures recorded in the same second count once. */
  lemma SameSecondCountsOnce(t: Table, serviceName: string, w1: int, w2: int, now: nat)
    ensures var once := AddFailureTable(t, serviceName, w1, now);
      TotalFailures(AddFailureTable(once, serviceName, w2, now), serviceName) == TotalFailures(once, serviceName)
  {
    AddFailureCount(AddFailureTable(t, serviceName, w1, now), serviceName, w2, now);
  }

  /** Opening writes only the open marker and makes the state OPEN, unless
      the half-open marker is already set. */
  lemma OpenSetsState(t: Table, serviceName: string, timeOpen: int)
    requires timeOpen != 0
    ensures State(OpenTable(t, serviceName, timeOpen), serviceName)
         == if Marked(t, KeyHalfOpen(serviceName)) then HALF_OPEN else OPEN
  {
    OpenIsNotHalfOpen(serviceName, serviceName);
    assert Lookup(OpenTable(t, serviceName, timeOpen), KeyHalfOpen(serviceName)) == Lookup(t, KeyHalfOpen(serviceName));
  }

  /** A marker write does not change the failure count of a service whose
      name holds no glob character. */
  lemma MarkersKeepOwnCount(t: Table, serviceName: string, v: int)
    requires NoWildcards(serviceName)
    ensures TotalFailures(OpenTable(t, serviceName, v), serviceName) == TotalFailures(t, serviceName)
    ensures TotalFailures(HalfOpenTable(t, serviceName, v), serviceName) == TotalFailures(t, serviceName)
  {
    var p := KeyTotalFailuresToSearch(serviceName);
    SearchMatchesPrefix(serviceName, KeyOpen(serviceName));
    SearchMatchesPrefix(serviceName, KeyHalfOpen(serviceName));
    OwnMarkersLackFailurePrefix(serviceName);
    MatchingAfterSet(t, p, KeyOpen(serviceName), v);
    MatchingAfterSet(t, p, KeyHalfOpen(serviceName), v);
  }

  lemma OwnMarkersLackFailurePrefix(serviceName: string)
    ensures !(FailurePrefix(serviceName) <= KeyOpen(serviceName))
    ensures !(FailurePrefix(serviceName) <= KeyHalfOpen(serviceName))
  {
    MarkerLacksFailurePrefix(PREFIX + serviceName, ":open");
    MarkerLacksFailurePrefix(PREFIX + serviceName, ":half_open");
  }

  /** A key whose text after the name does not continue with `t` cannot
      start with the failure prefix. */
  lemma MarkerLacksFailurePrefix(p: string, suf: string)
    requires 1 < |suf| && suf[1] != 't'
    ensures !(p + ":total_failures:" <= p + suf)
  {
    CharAfter(p, ":total_failures:", 1);
    CharAfter(p, suf, 1);
  }

  /** After a close the service reads CLOSED. */
  lemma CloseGivesClosed(t: Table, serviceName: string)
    ensures State(CloseTable(t, serviceName), serviceName) == CLOSED
  {
  }

  /** A key named by none of the three deleted keys is kept. */
  lemma KeptByDelete(t: Table, k: string, a: string, b: string, c: string)
    requires k in t && k != a && k != b && k != c
    ensures k in t - {a, b, c}
  {
  }

  /** Closing deletes the pattern as a literal key, so every stored failure
      key survives and the count stays at least one after any failure. */
  lemma FailuresSurviveClose(t: Table, serviceName: string, now: nat)
    requires KeyTotalFailuresToStore(serviceName, now) in t
    ensures KeyTotalFailuresToStore(serviceName, now) in CloseTable(t, serviceName)
    ensures TotalFailures(CloseTable(t, serviceName), serviceName) >= 1
  {
    var k, p := KeyTotalFailuresToStore(serviceName, now), KeyTotalFailuresToSearch(serviceName);
    MarkerKeysAreNoOtherKind(serviceName, serviceName, now);
    KeptByDelete(t, k, KeyOpen(serviceName), KeyHalfOpen(serviceName), p);
    StoreKeyMatchesSearch(serviceName, now);
    var m := Matching(CloseTable(t, serviceName), p);
    assert k in m;
  }

  /** Closing a service whose name holds no glob character leaves its count
      as it was, apart from a literal pattern key no operation writes. */
  lemma CloseKeepsCount(t: Table, serviceName: string)
    requires NoWildcards(serviceName)
    requires KeyTotalFailuresToSearch(serviceName) !in t
    ensures TotalFailures(CloseTable(t, serviceName), serviceName) == TotalFailures(t, serviceName)
  {
    SearchMatchesPrefix(serviceName, KeyOpen(serviceName));
    SearchMatchesPrefix(serviceName, KeyHalfOpen(serviceName));
    OwnMarkersLackFailurePrefix(serviceName);
    DeleteUnmatchedKeepsMatching(t, KeyTotalFailuresToSearch(serviceName), KeyOpen(serviceName), KeyHalfOpen(serviceName), KeyTotalFailuresToSearch(serviceName));
  }

  /** Operations on one service leave another service's state alone. */
  lemma OtherServiceStateIsolated(t: Table, s1: string, s2: string, v: int)
    requires s1 != s2
    ensures State(OpenTable(t, s1, v), s2) == State(t, s2)
    ensures State(HalfOpenTable(t, s1, v), s2) == State(t, s2)
    ensures State(CloseTable(t, s1), s2) == State(t, s2)
  {
    KeysInjective(s1, s2);
    OpenIsNotHalfOpen(s1, s2);
    OpenIsNotHalfOpen(s2, s1);
    StateIgnoresOtherKeys(t, s2, KeyOpen(s1), v);
    StateIgnoresOtherKeys(t, s2, KeyHalfOpen(s1), v);
    CloseKeepsOtherState(t, s1, s2);
  }

  lemma CloseKeepsOtherState(t: Table, s1: string, s2: string)
    requires s1 != s2
    ensures State(CloseTable(t, s1), s2) == State(t, s2)
  {
    KeysInjective(s1, s2);
    OpenIsNotHalfOpen(s1, s2);
    OpenIsNotHalfOpen(s2, s1);
    MarkerKeysAreNoOtherKind(s2, s1, 0);
    var o, h := KeyOpen(s2), KeyHalfOpen(s2);
    var a, b, c := KeyOpen(s1), KeyHalfOpen(s1), KeyTotalFailuresToSearch(s1);
    LookupAfterDelete(t, o, a, b, c);
    LookupAfterDelete(t, h, a, b, c);
  }

  lemma LookupAfterDelete(t: Table, k: string, a: string, b: string, c: string)
    requires k != a && k != b && k != c
    ensures Lookup(t - {a, b, c}, k) == Lookup(t, k)
  {
  }

  /** For plain names (no `:` and no glob character), operations on one
      service leave another service's failure count alone. */
  lemma OtherServiceCountIsolated(t: Table, s1: string, s2: string, v: int, now: nat)
    requires PlainName(s1) && PlainName(s2) && s1 != s2
    ensures TotalFailures(AddFailureTable(t, s1, v, now), s2) == TotalFailures(t, s2)
    ensures TotalFailures(OpenTable(t, s1, v), s2) == TotalFailures(t, s2)
    ensures TotalFailures(HalfOpenTable(t, s1, v), s2) == TotalFailures(t, s2)
    ensures TotalFailures(CloseTable(t, s1), s2) == TotalFailures(t, s2)
  {
    var p := KeyTotalFailuresToSearch(s2);
    SearchSeparatesPlainNames(s1, s2, now);
    MatchingAfterSet(t, p, KeyTotalFailuresToStore(s1, now), v);
    MatchingAfterSet(t, p, KeyOpen(s1), v);
    MatchingAfterSet(t, p, KeyHalfOpen(s1), v);
    var gone := {KeyOpen(s1), KeyHalfOpen(s1), KeyTotalFailuresToSearch(s1)};
    MatchingAfterDelete(t, p, gone);
    assert Matching(t, p) - gone == Matching(t, p);
  }

  /** A failure of the service named `<s>:total_failures:<r>` in a new
      second also raises the count of `s`, so counts are not isolated
      from names holding `:`. */
  lemma ColonNameRaisesOtherCount(t: Table, s: string, r: string, timeWindow: int, now: nat)
    requires NoWildcards(s)
    requires KeyTotalFailuresToStore(s + ":total_failures:" + r, now) !in t
    ensures TotalFailures(AddFailureTable(t, s + ":total_failures:" + r, timeWindow, now), s) == TotalFailures(t, s) + 1
  {
    var k := KeyTotalFailuresToStore(s + ":total_failures:" + r, now);
    ColonNameMatchesAnotherSearch(s, r, now);
    CountAfterSet(t, KeyTotalFailuresToSearch(s), k, timeWindow);
  }

  /** A failure of any service in a new second raises the count of the
      service named `*`. */
  lemma StarNameCountsEveryFailure(t: Table, s: string, timeWindow: int, now: nat)
    requires KeyTotalFailuresToStore(s, now) !in t
    ensures TotalFailures(AddFailureTable(t, s, timeWindow, now), "*") == TotalFailures(t, "*") + 1
  {
    StarNameMatchesEverySearch(s, now);
    CountAfterSet(t, KeyTotalFailuresToSearch("*"), KeyTotalFailuresToStore(s, now), timeWindow);
  }

  class RedisCircuitBreaker {
    const redis: RedisClient

    constructor (redis: RedisClient)
      ensures this.redis == redis
    {
      this.redis := redis;
    }

    /** Method `getState`. */
    method GetState(serviceName: string) returns (state: CircuitState)
      ensures state == State(redis.table, serviceName)
    {
      state := CLOSED;
      var halfOpen := redis.Get(KeyHalfOpen(serviceName));
      var open := redis.Get(KeyOpen(serviceName));
      if !Empty(halfOpen) {
        state := HALF_OPEN;
      } else if !Empty(open) {
        state := OPEN;
      }
    }

    /** Method `addFailure`; `now` is the reading of `time()`. */
    method AddFailure(serviceName: string, timeWindow: int, now: nat) returns (r: Result<()>)
      modifies redis`table
      ensures redis.available ==> r == Ok(()) && redis.table == AddFailureTable(old(redis.table), serviceName, timeWindow, now)
      ensures !redis.available ==> r == Err(AdapterException(redis.lastError)) && redis.table == old(redis.table)
    {
      var key := KeyTotalFailuresToStore(serviceName, now);
      var inserted := redis.Set(key, timeWindow);
      if !inserted {
        return Err(AdapterException(redis.lastError));
      }
      return Ok(());
    }

    /** Method `getTotalFailures`. */
    method GetTotalFailures(serviceName: string) returns (total: int)
      ensures total == TotalFailures(redis.table, serviceName)
    {
      var keys := redis.Keys(KeyTotalFailuresToSearch(serviceName));
      total := |keys|;
    }

    /** Method `openCircuit`. */
    method OpenCircuit(serviceName: string, timeOpen: int) returns (r: Result<()>)
      modifies redis`table
      ensures redis.available ==> r == Ok(()) && redis.table == OpenTable(old(redis.table), serviceName, timeOpen)
      ensures !redis.available ==> r == Err(AdapterException(redis.lastError)) && redis.table == old(redis.table)
    {
      var inserted := redis.Set(KeyOpen(serviceName), timeOpen);
      if !inserted {
        return Err(AdapterException(redis.lastError));
      }
      return Ok(());
    }

    /** Method `closeCircuit`: one DEL of three literal keys. */
    method CloseCircuit(serviceName: string) returns (r: Result<()>)
      modifies redis`table
      ensures redis.available ==> r == Ok(()) && redis.table == CloseTable(old(redis.table), serviceName)
      ensures !redis.available ==> r == Err(AdapterException(redis.lastError)) && redis.table == old(redis.table)
    {
      var keys := [KeyOpen(serviceName), KeyHalfOpen(serviceName), KeyTotalFailuresToSearch(serviceName)];
      var deleted := redis.Delete(keys);
      assert (set i | 0 <= i < |keys| :: keys[i]) == {keys[0], keys[1], keys[2]};
      if !deleted {
        return Err(AdapterException(redis.lastError));
      }
      return Ok(());
    }

    /** Method `setCircuitHalfOpen`. */
    method SetCircuitHalfOpen(serviceName: string, timeOpen: int) returns (r: Result<()>)
      modifies redis`table
      ensures redis.available ==> r == Ok(()) && redis.table == HalfOpenTable(old(redis.table), serviceName, timeOpen)
      ensures !redis.available ==> r == Err(AdapterException(redis.lastError)) && redis.table == old(redis.table)
    {
      var inserted := redis.Set(KeyHalfOpen(serviceName), timeOpen);
      if !inserted {
        return Err(AdapterException(redis.lastError));
      }
      return Ok(());
    }
  }
}
