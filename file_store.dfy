/**
 * Rewriting a JSON document file, as the file-backed stores do: the file is
 * opened write-only with create and truncate, then the document is encoded
 * into it. File I/O is outside the model; what the attempt gave is a
 * parameter, and the file's contents are tracked as an `OnDisk` value.
 */
module FileStore {
  import opened Wrappers

  /** An I/O error reported to the caller. */
  datatype StoreError = StoreError(code: int)

  /**
   * What one rewrite attempt gave: success, a failure to open (the file is
   * untouched), or a failure while encoding into the file after the
   * truncating open succeeded.
   */
  datatype Write = Written | OpenFailed(code: int) | EncodeFailed(code: int)

  /** The file's contents: no file, a complete document, or a truncated or half-written one. */
  datatype OnDisk<T> = Absent | Intact(doc: T) | Damaged

  /** The error a rewrite attempt returns to its caller. */
  function WriteOutcome(w: Write): (r: Outcome<StoreError>)
    ensures r.Pass? <==> w.Written?
    ensures w.OpenFailed? ==> r == Fail(StoreError(w.code))
    ensures w.EncodeFailed? ==> r == Fail(StoreError(w.code))
  {
    match w
    case Written => Pass
    case OpenFailed(code) => Fail(StoreError(code))
    case EncodeFailed(code) => Fail(StoreError(code))
  }

  /** The file after an attempt to rewrite it with `doc`. */
  function Rewrite<T>(before: OnDisk<T>, w: Write, doc: T): (after: OnDisk<T>)
    ensures w.Written? ==> after == Intact(doc)
    ensures w.OpenFailed? ==> after == before
    ensures w.EncodeFailed? ==> after == Damaged
  {
    match w
    case Written => Intact(doc)
    case OpenFailed(_) => before
    case EncodeFailed(_) => Damaged
  }

  /**
   * A failed rewrite never leaves a complete document the file did not
   * already hold, and only a failure after the truncating open loses the
   * old contents.
   */
  lemma {:induction false} FailedRewrite<T>(before: OnDisk<T>, w: Write, doc: T)
    requires WriteOutcome(w).Fail?
    ensures Rewrite(before, w, doc).Intact? ==> Rewrite(before, w, doc) == before
    ensures Rewrite(before, w, doc) != before ==> Rewrite(before, w, doc) == Damaged && w.EncodeFailed?
  {
    assert !w.Written?;
  }
}
