/** Values shared by every part of the circuit breaker: the circuit phases
    of src/CircuitState.php, and the exceptions the breaker raises, carried
    as values instead of being thrown. */
module Base {

  /** The externally observable phase of one service's circuit. */
  datatype CircuitState = CLOSED | OPEN | HALF_OPEN

  datatype Option<T> = None | Some(value: T)

  /** CircuitException (a blocked call, carrying the service name) and
      AdapterException (the store refused a write, carrying its last error). */
  datatype Error =
    | CircuitException(serviceName: string, message: string)
    | AdapterException(message: string)

  /** The outcome of an operation that may raise one of the errors above. */
  datatype Result<T> = Ok(value: T) | Err(error: Error)
}
