/**
 * Small shared vocabulary: optional values (PHP's `isset` on a value that may be
 * missing or NULL), results for code that throws, and the delivery tag a queue
 * message is acknowledged by.
 */
module Common {

  /** A value that may be absent; `None` stands for both "missing" and NULL, which
      PHP's `isset` does not tell apart. */
  datatype Option<+T> = None | Some(value: T) {

    /** The value, or `default` when absent. */
    function GetOr(default: T): T {
      match this
      case Some(v) => v
      case None => default
    }
  }

  /** Applies `f` under `Some`. */
  function MapOption<T, U>(o: Option<T>, f: T -> U): (r: Option<U>)
    ensures r.Some? <==> o.Some?
    ensures o.Some? ==> r.value == f(o.value)
  {
    match o
    case Some(v) => Some(f(v))
    case None => None
  }

  /** Either a value or the error a PHP exception would have carried. */
  datatype Result<+R, +E> = Success(value: R) | Failure(error: E)

  /** The handle a consumed queue message is acknowledged by. */
  type DeliveryTag = nat
}
