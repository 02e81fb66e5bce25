/** Integer widths, protocol constants and result types shared by every module. */
module Units {

  const U128_MAX: nat := 0xffff_ffff_ffff_ffff_ffff_ffff_ffff_ffff

  /** An unsigned 128-bit amount. Arithmetic on it is on `int`; an operation that
      the contracts check (`checked_mul`, `checked_add`, ...) compares with `U128_MAX`. */
  type Uint128 = n: int | 0 <= n <= U128_MAX

  /** Rate `R` means `R / RATE_SCALE` UST1 atoms for one vFDUSD atom. */
  const RATE_SCALE: nat := 1_000_000_000_000_000_000
  const BPS_DENOM: nat := 10_000
  const MAX_DAILY_INCREASE_BPS: nat := 200
  const MIN_UPDATE_INTERVAL: nat := 14_400
  const DAY: nat := 86_400
  const DEFAULT_MAX_ORACLE_AGE: nat := 21_600

  /** An address; the contracts only compare addresses. */
  datatype Addr = Addr(text: string)

  function Max(a: int, b: int): int {
    if a >= b then a else b
  }

  datatype Option<+T> = None | Some(value: T) {
    /** Turns an absent value into an error. */
    function ToResult<E>(error: E): Result<T, E> {
      match this
      case Some(v) => Ok(v)
      case None => Err(error)
    }
  }

  datatype Result<+T, +E> = Ok(value: T) | Err(error: E) {
    predicate IsFailure() {
      Err?
    }

    function PropagateFailure<U>(): Result<U, E>
      requires Err?
    {
      Err(error)
    }

    function Extract(): T
      requires Ok?
    {
      value
    }

    /** Wraps the error of a callee in the caller's error type. */
    function MapErr<F>(wrap: E -> F): Result<T, F> {
      match this
      case Ok(v) => Ok(v)
      case Err(e) => Err(wrap(e))
    }
  }
}
