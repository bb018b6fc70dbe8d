/** Option and Result, for the absent values and the error returns of the Go code, and the outcome of
    writing an object to a bucket. */
module Wrappers {
  datatype Option<+T> = None | Some(value: T)

  datatype Result<+T, +E> = Ok(value: T) | Err(error: E)

  /** A write succeeds, or fails, and a failed one may have landed all the same. */
  datatype WriteResult = Written | Lost | Landed

  /** A bucket after a write. */
  function AfterWrite<K, V>(store: map<K, V>, key: K, value: V, w: WriteResult): map<K, V> {
    if w.Lost? then store else store[key := value]
  }
}
