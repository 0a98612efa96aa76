/** The status value every operation returns (fibjs/include/result.h).
    A status is a code plus an optional description; a code below zero is a failure, and the
    codes of the asynchronous bridge are themselves below zero. */
module Results {

  datatype Option<+T> = None | Some(value: T)

  type Byte = x: int | 0 <= x < 0x100

  const CALL_RETURN_NULL := 100000
  const CALL_E_MAX := -20000
  const CALL_E_PENDDING := CALL_E_MAX - 15
  const CALL_E_NOASYNC := CALL_E_MAX - 16
  const CALL_E_NOSYNC := CALL_E_MAX - 17
  const CALL_E_TIMEOUT := CALL_E_MAX - 21
  const CALL_E_ABORT := CALL_E_MAX - 22
  const CALL_E_EXCEPTION := CALL_E_MAX - 24

  datatype Result = Result(code: int, payload: Option<string>) {
    predicate Failed() { code < 0 }
    predicate IsPending() { code == CALL_E_PENDDING }
    predicate IsNoSync() { code == CALL_E_NOSYNC }
    predicate IsNoAsync() { code == CALL_E_NOASYNC }
    predicate IsReturnNull() { code == CALL_RETURN_NULL }
    predicate IsException() { code == CALL_E_EXCEPTION }
  }

  const OK := Result(0, None)
  const PENDING := Result(CALL_E_PENDDING, None)
  const RETURN_NULL := Result(CALL_RETURN_NULL, None)
  const TIMEOUT := Result(CALL_E_TIMEOUT, None)
}
