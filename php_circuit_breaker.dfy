/** The library types the manager of src/CircuitBreakerManager.php builds
    and delegates to: CircuitBreakerConfig, the shared storage, the event
    dispatcher and the library's CircuitBreaker. The library's source is
    not part of this model, so its engine is a stand-in: it records every
    call it receives, keeps forced states in the shared storage, and
    answers `getState` and `canPass` from that storage. */
module PhpCircuitBreaker {
  import opened Base

  /** The library's six-field configuration value. */
  datatype CircuitBreakerConfig = CircuitBreakerConfig(
    failureThreshold: int,
    successThreshold: int,
    timeWindow: int,
    openTimeout: int,
    halfOpenTimeout: int,
    exceptionsEnabled: bool)

  /** The storage every engine instance of one manager shares. */
  class Storage {
    var states: map<string, CircuitState>

    constructor ()
      ensures states == map[]
    {
      states := map[];
    }
  }

  class EventDispatcher {
    constructor ()
    {
    }
  }

  /** The state the storage holds for a service; CLOSED when none. */
  function StoredState(storage: Storage, service: string): CircuitState
    reads storage
  {
    if service in storage.states then storage.states[service] else CLOSED
  }

  /** One call received by an engine instance, with its arguments. */
  datatype Call =
    | CanPassCall(service: string)
    | RecordFailureCall(service: string)
    | RecordSuccessCall(service: string)
    | GetStateCall(service: string)
    | ForceStateCall(service: string, state: CircuitState, ttl: Option<int>)
    | ClearOverrideCall(service: string)

  class CircuitBreaker {
    const storage: Storage
    const config: CircuitBreakerConfig
    const eventDispatcher: Option<EventDispatcher>
    var calls: seq<Call>

    constructor (storage: Storage, config: CircuitBreakerConfig, eventDispatcher: Option<EventDispatcher>)
      ensures this.storage == storage && this.config == config && this.eventDispatcher == eventDispatcher
      ensures calls == []
    {
      this.storage := storage;
      this.config := config;
      this.eventDispatcher := eventDispatcher;
      calls := [];
    }

    method CanPass(service: string) returns (pass: bool)
      modifies this`calls
      ensures calls == old(calls) + [CanPassCall(service)]
      ensures pass == (StoredState(storage, service) != OPEN)
    {
      calls := calls + [CanPassCall(service)];
      pass := StoredState(storage, service) != OPEN;
    }

    method RecordFailure(service: string)
      modifies this`calls
      ensures calls == old(calls) + [RecordFailureCall(service)]
    {
      calls := calls + [RecordFailureCall(service)];
    }

    method RecordSuccess(service: string)
      modifies this`calls
      ensures calls == old(calls) + [RecordSuccessCall(service)]
    {
      calls := calls + [RecordSuccessCall(service)];
    }

    method GetState(service: string) returns (state: CircuitState)
      modifies this`calls
      ensures calls == old(calls) + [GetStateCall(service)]
      ensures state == StoredState(storage, service)
    {
      calls := calls + [GetStateCall(service)];
      state := StoredState(storage, service);
    }

    method ForceState(service: string, state: CircuitState, ttl: Option<int>)
      modifies this`calls, storage`states
      ensures calls == old(calls) + [ForceStateCall(service, state, ttl)]
      ensures storage.states == old(storage.states)[service := state]
    {
      calls := calls + [ForceStateCall(service, state, ttl)];
      storage.states := storage.states[service := state];
    }

    method ClearOverride(service: string)
      modifies this`calls, storage`states
      ensures calls == old(calls) + [ClearOverrideCall(service)]
      ensures storage.states == old(storage.states) - {service}
    {
      calls := calls + [ClearOverrideCall(service)];
      storage.states := storage.states - {service};
    }
  }
}
