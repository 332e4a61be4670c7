# Laravel circuit breaker — a Dafny model

This project models the core of a Laravel circuit breaker package:
- the state engine (`CircuitBreaker`);
- the two Redis adapters that implement the `CircuitBreakerAdapter` contract;
- the key scheme of the newer adapter (`KeyHelper`);
- the per-service `CircuitBreakerManager`.

The engine tracks one circuit per named service. Each circuit is in one of three states, `CLOSED`, `OPEN` or `HALF_OPEN`, kept in a key–value store:
- `canPass` lets a call through unless the circuit is `OPEN`. On `OPEN` it raises a `CircuitException` when `exceptions_on` is the boolean `true`.
- `failed` records failures. It then reads back the failure count and the state. It opens the circuit, writing both the open and the half-open marker, when the state is `HALF_OPEN` or the count reaches `total_failures`.
- `succeed` closes the circuit.

The manager keeps a lazily filled cache of engines from the companion library. It resolves each service's configuration field by field from per-service overrides over a default.

The three states of `src/CircuitState.php` are the datatype `Base.CircuitState`.

The Redis store is a class holding a `map<string, int>` key table, with GET, SET, DEL, INCR and KEYS. KEYS uses a glob matcher for `*` and `?`. The store's `available` flag stands for a store that refuses writes, and `lastError` is the error it reports. `time()` is a parameter `now`.

Each adapter is a class over that store, proved against pure functions that give the table after each operation. The abstract adapter is a datatype with one case per adapter, and its six operations dispatch by case. The engine is a class proved against `FailedTable`, `CanPassDecision` and the adapters' functions.

The model follows the code wherever behaviour and a natural reading differ. Some proved consequences of the code as written:
- Both adapters read the half-open marker before the open marker, and opening writes both. So right after `failed` opens a circuit, it reports `HALF_OPEN` and `canPass` lets calls through (`Engine.OpeningReportsHalfOpen`). The model keeps this order.
- In the newer adapter, `closeCircuit` deletes the failure search pattern as a literal key. The time-stamped failure keys survive a close, so the count stays at least one after any failure (`RedisAdapter.FailuresSurviveClose`; this relies on the model's KEYS matcher, see "## Left out" for names holding `[` or `\`).
- In the newer adapter, failures in the same second share one key and count once (`RedisAdapter.SameSecondCountsOnce`, `Engine.SameSecondFailuresDoNotOpen`).
- In the newer adapter, a failure recorded by a service named `s:total_failures:r` is also counted for `s` (`KeyHelper.ColonNameMatchesAnotherSearch`, `RedisAdapter.ColonNameRaisesOtherCount`). A service named `*` counts every service's failures (`KeyHelper.StarNameMatchesEverySearch`, `RedisAdapter.StarNameCountsEveryFailure`). Counts are isolated only between two names that both lack `:` and glob characters (`RedisAdapter.OtherServiceCountIsolated`). The older adapter isolates services whatever their names (`LegacyRedisAdapter.OtherServiceIsolated`).
- `total_failures` has no default. When it is missing, `$totalFailures >= null` holds under PHP 8 comparison rules, so every failure opens the circuit (`Engine.MissingThresholdOpensOnEveryFailure`).
- The engine passes its `numberOfFailures` to the adapter's `addFailure`. The newer adapter stores that number as the value of the failure key (its `timeWindow` parameter), so the count grows by one key, not by the number.

The unit test `tests/Unit/CircuitBreakerTest.php` targets a different constructor and `addFailure` signature. The model follows `src/CircuitBreaker.php`.

The newer adapter declares `addFailure(string $serviceName, int $timeWindow)` (`src/Adapter/Redis/RedisCircuitBreaker.php:68`) with a required second parameter. The abstract parent makes that parameter optional (`src/Contract/CircuitBreakerAdapter.php:31`). PHP rejects such a child declaration as incompatible, so the class as written fails to load with a fatal error. The model gives both adapters a two-argument operation and describes what the methods would do once loaded.

## Model

| member | source | states |
|---|---|---|
| KeyHelper.GenerateKey | src/Adapter/Redis/KeyHelper.php:35-38 | a template without `{` comes back unchanged, whatever the service name |
| KeyHelper.GenerateKeySubstitutes | src/Adapter/Redis/KeyHelper.php:35-38 | replacing `{SERVICE}` in a template with exactly one placeholder and no other `{` gives prefix + service name + suffix, whatever characters the name holds |
| KeyHelper.KeyTotalFailuresToStore | src/Adapter/Redis/KeyHelper.php:47-51 | the failure key is `circuit_breaker:` + name + `:total_failures:` + the decimal rendering of `time()` |
| KeyHelper.KeyTotalFailuresToSearch | src/Adapter/Redis/KeyHelper.php:60-64 | the search key is `circuit_breaker:` + name + `:total_failures:*` |
| KeyHelper.KeyOpen | src/Adapter/Redis/KeyHelper.php:73-76 | the open key is `circuit_breaker:` + name + `:open` |
| KeyHelper.KeyClosed | src/Adapter/Redis/KeyHelper.php:85-88 | the closed key is `circuit_breaker:` + name + `:closed` |
| KeyHelper.KeyHalfOpen | src/Adapter/Redis/KeyHelper.php:97-100 | the half-open key is `circuit_breaker:` + name + `:half_open` |
| KeyHelper.Decimal | src/Adapter/Redis/KeyHelper.php:49 | the rendering of a timestamp is a non-empty string of decimal digits |
| KeyHelper.DecimalInjective | src/Adapter/Redis/KeyHelper.php:49 | distinct timestamps render to distinct strings |
| KeyHelper.StoreKeyMatchesSearch | src/Adapter/Redis/KeyHelper.php:47-64 | every failure key of a service, at any second, matches that service's search pattern under the model's KEYS matcher, which reads `[` and `\` literally |
| KeyHelper.MarkerKeysAreNoOtherKind | src/Adapter/Redis/KeyHelper.php:16-25 | open, half-open, closed, failure and search keys of any two services are never equal across kinds |
| KeyHelper.KeysInjective | src/Adapter/Redis/KeyHelper.php:35-38 | distinct service names give distinct open, half-open, closed and search keys |
| KeyHelper.StoreKeysInjective | src/Adapter/Redis/KeyHelper.php:47-51 | equal failure keys mean the same service and the same second |
| KeyHelper.SearchMatchesPrefix | src/Adapter/Redis/KeyHelper.php:60-64 | for a name without glob characters, the search pattern matches exactly the keys starting with `circuit_breaker:` + name + `:total_failures:` |
| KeyHelper.SearchSeparatesPlainNames | src/Adapter/Redis/KeyHelper.php:60-64 | for distinct names without `:` or glob characters, one service's search pattern matches none of the other's keys |
| KeyHelper.ColonNameMatchesAnotherSearch | src/Adapter/Redis/KeyHelper.php:60-64 | the search pattern of a name `s` matches failure keys of the service `s:total_failures:r` |
| KeyHelper.StarNameMatchesEverySearch | src/Adapter/Redis/KeyHelper.php:60-64 | the search pattern of the name `*` matches every service's failure keys |
| RedisStore.LiteralStarIsPrefix | src/Adapter/Redis/RedisCircuitBreaker.php:88-90 | a KEYS pattern made of a literal followed by `*` matches exactly the keys that start with the literal |
| RedisAdapter.RedisCircuitBreaker.GetState | src/Adapter/Redis/RedisCircuitBreaker.php:44-58 | the state read is HALF_OPEN for a non-empty half-open key, else OPEN for a non-empty open key, else CLOSED |
| RedisAdapter.RedisCircuitBreaker.AddFailure | src/Adapter/Redis/RedisCircuitBreaker.php:68-77 | on success only the failure key of the current second is written, holding the given number; a refused write raises AdapterException with the store's last error and changes nothing |
| RedisAdapter.RedisCircuitBreaker.GetTotalFailures | src/Adapter/Redis/RedisCircuitBreaker.php:86-93 | the count is the number of stored keys matching the service's search pattern |
| RedisAdapter.RedisCircuitBreaker.OpenCircuit | src/Adapter/Redis/RedisCircuitBreaker.php:103-112 | only the open key is written, holding `timeOpen`; a refused write raises AdapterException and changes nothing |
| RedisAdapter.RedisCircuitBreaker.CloseCircuit | src/Adapter/Redis/RedisCircuitBreaker.php:121-132 | one DEL removes the open key, the half-open key and the search pattern as a literal key; a refused delete raises AdapterException and changes nothing |
| RedisAdapter.RedisCircuitBreaker.SetCircuitHalfOpen | src/Adapter/Redis/RedisCircuitBreaker.php:142-151 | only the half-open key is written, holding `timeOpen`; a refused write raises AdapterException and changes nothing |
| RedisAdapter.HalfOpenTakesPrecedence | src/Adapter/Redis/RedisCircuitBreaker.php:51-55 | with both markers written, a non-zero half-open value gives HALF_OPEN, and a zero one counts as absent |
| RedisAdapter.AddFailureKeepsState | src/Adapter/Redis/RedisCircuitBreaker.php:68-77 | recording a failure changes no service's state |
| RedisAdapter.AddFailureCount | src/Adapter/Redis/RedisCircuitBreaker.php:68-93 | a failure adds one to the count unless a failure was already stored in that second, when it adds nothing, under the model's KEYS matcher (see "## Left out" for names holding `[` or `\`) |
| RedisAdapter.SameSecondCountsOnce | src/Adapter/Redis/RedisCircuitBreaker.php:70-72 | two failures recorded in the same second count once |
| RedisAdapter.OpenSetsState | src/Adapter/Redis/RedisCircuitBreaker.php:103-112 | opening with a non-zero value gives OPEN, unless the half-open marker is already set |
| RedisAdapter.MarkersKeepOwnCount | src/Adapter/Redis/RedisCircuitBreaker.php:103-112 | for a name without glob characters, marker writes leave the service's failure count unchanged |
| RedisAdapter.CloseGivesClosed | src/Adapter/Redis/RedisCircuitBreaker.php:121-132 | after a close the service reads CLOSED |
| RedisAdapter.FailuresSurviveClose | src/Adapter/Redis/RedisCircuitBreaker.php:121-132 | a stored failure key survives a close, so the count stays at least one under the model's KEYS matcher (see "## Left out" for names holding `[` or `\`) |
| RedisAdapter.CloseKeepsCount | src/Adapter/Redis/RedisCircuitBreaker.php:121-132 | for a name without glob characters, and with no key stored under the literal pattern `circuit_breaker:<name>:total_failures:*`, closing leaves the failure count exactly as it was (when that literal key is stored, the close deletes it) |
| RedisAdapter.OtherServiceStateIsolated | src/Adapter/Redis/RedisCircuitBreaker.php:44-58 | opening, half-opening or closing one service leaves every other service's state unchanged |
| RedisAdapter.ColonNameRaisesOtherCount | src/Adapter/Redis/RedisCircuitBreaker.php:68-93 | for a name `s` without glob characters, a failure in a new second of the service `s:total_failures:r` raises the count of `s` by one |
| RedisAdapter.StarNameCountsEveryFailure | src/Adapter/Redis/RedisCircuitBreaker.php:68-93 | a failure of any service in a new second raises the count of the service named `*` by one |
| RedisAdapter.OtherServiceCountIsolated | src/Adapter/Redis/RedisCircuitBreaker.php:86-93 | for distinct names without `:` or glob characters, every operation on one service leaves the other's count unchanged |
| LegacyRedisAdapter.Key | src/Adapter/RedisCircuitBreaker.php:39-42 | the key is `circuit_breaker:`, then the service name, then `:`, then the identifier, each found back at its own position |
| LegacyRedisAdapter.IdentifiersSeparateKeys | src/Adapter/RedisCircuitBreaker.php:39-42 | keys with different identifiers differ, whatever the service names |
| LegacyRedisAdapter.ServiceKeysDisjoint | src/Adapter/RedisCircuitBreaker.php:39-42 | distinct services own disjoint sets of keys, whatever their names hold |
| LegacyRedisAdapter.RedisCircuitBreaker.GetState | src/Adapter/RedisCircuitBreaker.php:51-65 | the state read is HALF_OPEN for a non-empty HALF_OPEN key, else OPEN for a non-empty OPEN key, else CLOSED |
| LegacyRedisAdapter.RedisCircuitBreaker.AddFailure | src/Adapter/RedisCircuitBreaker.php:73-80 | the loop of INCRs raises the counter by exactly the number of failures when positive and leaves it alone otherwise; refused writes are silently lost |
| LegacyRedisAdapter.RedisCircuitBreaker.GetTotalFailures | src/Adapter/RedisCircuitBreaker.php:89-94 | the count is the stored counter, 0 when absent |
| LegacyRedisAdapter.RedisCircuitBreaker.OpenCircuit | src/Adapter/RedisCircuitBreaker.php:102-107 | only the OPEN key is set, to `timeOpen`; a refused write is ignored |
| LegacyRedisAdapter.RedisCircuitBreaker.CloseCircuit | src/Adapter/RedisCircuitBreaker.php:116-123 | the OPEN, HALF_OPEN and total_failures keys are deleted; a refused delete is ignored |
| LegacyRedisAdapter.RedisCircuitBreaker.SetCircuitHalfOpen | src/Adapter/RedisCircuitBreaker.php:131-136 | only the HALF_OPEN key is set, to `timeOpen`; a refused write is ignored |
| LegacyRedisAdapter.OnlyOwnKeysChange | src/Adapter/RedisCircuitBreaker.php:73-136 | every write operation on a service leaves all keys outside that service's three keys unchanged |
| LegacyRedisAdapter.OtherServiceIsolated | src/Adapter/RedisCircuitBreaker.php:51-136 | every operation on one service leaves another service's state and count unchanged |
| LegacyRedisAdapter.AddFailureCount | src/Adapter/RedisCircuitBreaker.php:73-80 | adding n failures raises the count by n when n is positive and by 0 otherwise, and keeps the state |
| LegacyRedisAdapter.HalfOpenTakesPrecedence | src/Adapter/RedisCircuitBreaker.php:58-62 | with both markers written, a non-zero HALF_OPEN value gives HALF_OPEN, and a zero one counts as absent |
| LegacyRedisAdapter.CloseResets | src/Adapter/RedisCircuitBreaker.php:116-123 | after a close the service reads CLOSED with a count of 0 |
| Contract.CircuitBreakerAdapter.GetState | src/Contract/CircuitBreakerAdapter.php:23 | each adapter reports the state its own precedence derives from the table |
| Contract.CircuitBreakerAdapter.AddFailure | src/Contract/CircuitBreakerAdapter.php:31 | on an available store the table becomes the adapter's failure table; on a refused write the newer adapter raises and the older one returns normally, with the table unchanged in both |
| Contract.CircuitBreakerAdapter.GetTotalFailures | src/Contract/CircuitBreakerAdapter.php:40 | each adapter reports its own count of the table |
| Contract.CircuitBreakerAdapter.OpenCircuit | src/Contract/CircuitBreakerAdapter.php:48 | the open marker is written on an available store; a refusal is raised or ignored by adapter, with the table unchanged |
| Contract.CircuitBreakerAdapter.CloseCircuit | src/Contract/CircuitBreakerAdapter.php:57 | the adapter's close deletions on an available store; a refusal is raised or ignored by adapter, with the table unchanged |
| Contract.CircuitBreakerAdapter.SetCircuitHalfOpen | src/Contract/CircuitBreakerAdapter.php:65 | the half-open marker is written on an available store; a refusal is raised or ignored by adapter, with the table unchanged |
| Contract.HalfOpenTakesPrecedence | src/Contract/CircuitBreakerAdapter.php:65 | for both adapters, a non-zero half-open marker written after the open marker gives HALF_OPEN |
| Contract.AddFailureKeepsState | src/Contract/CircuitBreakerAdapter.php:31 | for both adapters, recording failures changes no service's state |
| Contract.CloseGivesClosed | src/Contract/CircuitBreakerAdapter.php:57 | for both adapters, a close leaves the service CLOSED |
| Contract.OtherServiceStateIsolated | src/Contract/CircuitBreakerAdapter.php:48-65 | for both adapters, marker writes and closes of one service leave another's state unchanged |
| Engine.MergeSettings | src/CircuitBreaker.php:36-42 | the merged settings hold exactly the default keys and the given keys; a given key wins, and a default key not given keeps its default |
| Engine.DefaultSettings | src/CircuitBreaker.php:36-40 | with no settings given, exceptions are on, the open timeout is 30, the half-open marker value is 50, and `total_failures` is missing |
| Engine.CircuitBreaker.constructor | src/CircuitBreaker.php:29-43 | the engine keeps the adapter and the settings merged over the defaults |
| Engine.CircuitBreaker.CanPass | src/CircuitBreaker.php:53-66 | the result is the decision on the adapter's state read from the store |
| Engine.CanPassBlocksOnlyOpen | src/CircuitBreaker.php:53-66 | passes exactly when the state is not OPEN; on OPEN returns false exactly when `exceptions_on` is not the boolean true, else raises CircuitException with the service name and "The circuit is open." |
| Engine.CircuitBreaker.Failed | src/CircuitBreaker.php:74-90 | on an available store the table becomes `FailedTable`: the failure, then both markers only when the open condition holds on the count and state read back; a write the newer adapter refuses ends the call with AdapterException |
| Engine.FailedOpensExactlyWhen | src/CircuitBreaker.php:76-89 | the markers are written, with `time_out_open` and `time_out_open + time_out_half_open`, exactly when the state before was HALF_OPEN or the count after recording reaches the threshold; otherwise only the failure is written |
| Engine.OpeningReportsHalfOpen | src/CircuitBreaker.php:81-88 | whenever `failed` opens the circuit with a non-zero half-open value, the circuit then reads HALF_OPEN and `canPass` lets calls through |
| Engine.OpenWithLowCountStaysOpen | src/CircuitBreaker.php:81-82 | an OPEN circuit whose count stays below the threshold is not re-opened and stays OPEN |
| Engine.MissingThresholdOpensOnEveryFailure | src/CircuitBreaker.php:82 | with no `total_failures` setting, every failure opens the circuit |
| Engine.FailedIsolatesState | src/CircuitBreaker.php:74-90 | a failure of one service leaves every other service's state unchanged |
| Engine.LegacyOpensAtThreshold | src/CircuitBreaker.php:76-82 | with the older adapter and an integer threshold, a circuit that is not half-open opens exactly when the counter plus the positive part of n reaches the threshold |
| Engine.SameSecondFailuresDoNotOpen | src/CircuitBreaker.php:76-82 | with the newer adapter and a threshold of 2, two single failures in the same second on an empty store leave the circuit CLOSED |
| Engine.CircuitBreaker.Succeed | src/CircuitBreaker.php:97-100 | only the adapter's close is performed, whatever the state |
| Engine.SucceedCloses | src/CircuitBreaker.php:97-100 | after `succeed`, whatever the state was, `canPass` lets calls through under any settings |
| Manager.ResolveConfig | src/CircuitBreakerManager.php:41-57 | the default config without an override; with one, each of the six fields takes the cast override when it is set, and the default's field otherwise |
| Manager.IntOption | src/CircuitBreakerManager.php:92-99 | a missing or null option gives the default; a set int is taken as is, and `true`/`false` become 1/0 as PHP's `(int)` cast makes them |
| Manager.BoolOption | src/CircuitBreakerManager.php:104-111 | a missing or null option gives the default; a set bool is taken as is, and an int is true exactly when non-zero, as PHP's `(bool)` cast makes it |
| Manager.OptionsFallBack | src/CircuitBreakerManager.php:92-111 | a missing or null option gives the default, and a set option ignores the default |
| Manager.ResolveConfigIdempotent | src/CircuitBreakerManager.php:41-57 | resolving again over a resolved config gives the same config |
| Manager.EmptyOverrideIsDefault | src/CircuitBreakerManager.php:43-56 | an override array holding only nulls resolves to the default config |
| Manager.FullOverrideIgnoresDefault | src/CircuitBreakerManager.php:49-56 | an override setting all six options resolves the same over any default |
| Manager.CircuitBreakerManager.constructor | src/CircuitBreakerManager.php:21-26 | the manager keeps its storage, default config, dispatcher and overrides, and starts with an empty cache |
| Manager.CircuitBreakerManager.Resolve | src/CircuitBreakerManager.php:28-39 | returns the cached instance when present; otherwise caches a fresh one built with the shared storage, the shared dispatcher and the resolved config; no other entry changes; distinct names keep distinct instances |
| Manager.CircuitBreakerManager.CanPass | src/CircuitBreakerManager.php:59-62 | resolves the name and delegates exactly one `canPass` call to its instance, touching no other instance |
| Manager.CircuitBreakerManager.RecordFailure | src/CircuitBreakerManager.php:64-67 | resolves the name and delegates exactly one `recordFailure` call, touching no other instance |
| Manager.CircuitBreakerManager.RecordSuccess | src/CircuitBreakerManager.php:69-72 | resolves the name and delegates exactly one `recordSuccess` call, touching no other instance |
| Manager.CircuitBreakerManager.GetState | src/CircuitBreakerManager.php:74-77 | resolves the name and delegates exactly one `getState` call, returning its answer |
| Manager.CircuitBreakerManager.ForceState | src/CircuitBreakerManager.php:79-82 | resolves the name and delegates exactly one `forceState` call with the same state and ttl |
| Manager.CircuitBreakerManager.ClearOverride | src/CircuitBreakerManager.php:84-87 | resolves the name and delegates exactly one `clearOverride` call |

## Left out

- Expiry: neither adapter passes a TTL to Redis, and the model has no clock-driven expiry. The second argument of SET is the stored value.
- Store reads (GET, KEYS) never fail in the model. A store that refuses writes does so for a whole call, so a store failing midway through `failed` is not modelled.
- The real Redis client and its connection are not modelled. The model's KEYS patterns support `*` and `?` only; `[...]` classes and `\` escapes are read as literal characters. Its `?` matches one character, where Redis's matches one byte, so the two differ for non-ASCII names.
- KeyHelper.StoreKeyMatchesSearch: holds in the model for every name, but real KEYS reads `[`, `]` and `\` in the name as glob syntax. For `api[v2]` the pattern `circuit_breaker:api[v2]:total_failures:*` matches the keys of `apiv` and `api2` and never the service's own keys.
- RedisAdapter.AddFailureCount: for a name holding `[` or `\`, the real count does not grow with the service's own failures (it counts other services' keys instead); the model's count grows by one.
- RedisAdapter.FailuresSurviveClose: for a name holding `[` or `\`, the real count ignores the surviving keys and can be 0 after a close; the model's count stays at least one.
- `time()` is the parameter `now`, one reading per call.
- The optional KeyHelper injected through the newer adapter's constructor is not modelled; the default KeyHelper is always used.
- Default argument values (`$numberOfFailures = 1`) are not modelled; callers pass every argument.
- Settings values are booleans and integers only. Strings, floats and arrays, and the renumbering `array_merge` does for numeric keys, are not modelled.
- LegacyRedisAdapter.RedisCircuitBreaker.AddFailure: Redis refuses an INCR that would pass 2^63-1, and the adapter ignores that refusal, so the stored counter stays at the maximum; the model's counter is unbounded and keeps growing.
- The sum `time_out_open + time_out_half_open` in `failed` becomes a float in PHP when it passes the 64-bit integer range; the model's integers are unbounded.
- The companion library's `CircuitBreaker`, `CircuitBreakerConfig`, storage and event dispatcher are not part of this model. Its engine is a stand-in that records each call it receives, keeps forced states in the shared storage, and answers `canPass` and `getState` from that storage. Its state transitions on failures and successes are not modelled.
- Manager.CircuitBreakerManager.CanPass: the answer reflects only the stand-in engine, because the library's decision is not part of this model.
- Manager.CircuitBreakerManager.GetState: the answer reflects only the stand-in engine, for the same reason.
- The service providers, the configuration file, the HTTP middleware, the console commands, the facades, the event dispatcher bridge and the `Alert` contract are framework glue and are not modelled.
- `CircuitException` and `AdapterException` are error values carrying their fields; the exception class hierarchy is not modelled.
- PHP warnings, such as the one for the undefined `total_failures` key, are not modelled; only the resulting value is.
- Concurrency: the code takes no locks, and the model is sequential.
