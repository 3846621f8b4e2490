/**
 * The backend-independent key-value contract: byte values, the change
 * operation enumeration and the change event a watcher receives.
 */
module KvTypes {

  /** Raw bytes (a Go `[]byte`; nil and empty are the same value here). */
  type Bytes = seq<bv8>

  /** `Operation` is a Go `int` enumerated with iota. */
  type Operation = int

  const Put: Operation := 0
  const Delete: Operation := 1

  /** `Operation.String`. */
  function OperationName(o: Operation): (r: string)
    ensures r == "Put" <==> o == Put
    ensures r == "Delete" <==> o == Delete
    ensures r == "Unknown" <==> o != Put && o != Delete
  {
    if o == Put then "Put"
    else if o == Delete then "Delete"
    else "Unknown"
  }

  /**
   * What a watcher's queue carries: a `*Value` that is either nil (the
   * marker that the replay of pre-existing entries is complete) or a change.
   */
  datatype Event =
    | Sentinel
    | Change(key: string, value: Bytes, op: Operation)

  /** Errors the broker reports; any of them may reach a caller unchanged. */
  datatype BrokerError =
    | BucketExists
    | BrokerKeyNotFound
    | BrokerFailure(code: int)

  /** Errors of the key-value contract. */
  datatype KvError =
    | KeyNotFound          // the uniform "not found" error of the kv package
    | Malformed            // the stored document does not decode
    | Broker(cause: BrokerError)

  /**
   * What reading one key and decoding its JSON value gave: the value, no
   * such key (the store resets its document), or any other error.
   */
  datatype Lookup<T> = Found(value: T) | KeyMissing | LookupFailed(error: KvError)
}
