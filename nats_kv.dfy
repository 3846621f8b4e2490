/**
 * The key-value store backed by a JetStream key-value bucket. The broker
 * itself is outside the model: each broker call is represented by its reply,
 * passed in as a parameter, and what is modelled is how the adapter turns
 * those replies into the uniform key-value contract.
 */
module NatsKv {
  import opened Wrappers
  import opened KvTypes

  /** Opaque identity of a broker-side key-value store handle. */
  type Handle = nat

  /** The broker's operation tag on an update; tags beyond the three known ones can arrive. */
  datatype BrokerOp = OpPut | OpDelete | OpPurge | OpOther(tag: int)

  /** One entry of the broker's update stream. */
  datatype BrokerEntry = BrokerEntry(key: string, value: Bytes, op: BrokerOp)

  /** A broker update: `None` is the broker's nil (initial values delivered), `Some` an entry. */
  type Update = Option<BrokerEntry>

  // ---------------------------------------------------------------------
  // Opening a bucket
  // ---------------------------------------------------------------------

  /**
   * Which broker store `Bucket(name)` ends up with, given the reply to the
   * create call and the reply to the attach call (consulted only when the
   * create call says the bucket already exists).
   */
  function ResolveHandle(created: Result<Handle, BrokerError>, attached: Result<Handle, BrokerError>): (r: Result<Handle, KvError>)
    ensures created.Success? ==> r == Success(created.value)
    ensures created == Failure(BucketExists) ==>
      r == (if attached.Success? then Success(attached.value) else Failure(Broker(attached.error)))
    ensures created.Failure? && created.error != BucketExists ==> r == Failure(Broker(created.error))
  {
    match created
    case Success(h) => Success(h)
    case Failure(BucketExists) =>
      (match attached
       case Success(h) => Success(h)
       case Failure(e) => Failure(Broker(e)))
    case Failure(e) => Failure(Broker(e))
  }

  /** A broker error is never reported as the uniform not-found error when a bucket is opened. */
  lemma {:induction false} ResolveHandleNeverNotFound(created: Result<Handle, BrokerError>, attached: Result<Handle, BrokerError>)
    ensures ResolveHandle(created, attached) != Failure(KeyNotFound)
    ensures ResolveHandle(created, attached).Failure? ==> ResolveHandle(created, attached).error.Broker?
  {
  }

  /**
   * `NATSClient.Bucket`: a fresh adapter with no watchers over the store the
   * broker handed back, or the broker's error.
   */
  method OpenBucket(name: string, created: Result<Handle, BrokerError>, attached: Result<Handle, BrokerError>)
    returns (r: Result<NATSBucket, KvError>)
    ensures ResolveHandle(created, attached).Failure? ==> r == Failure(ResolveHandle(created, attached).error)
    ensures ResolveHandle(created, attached).Success? ==>
      && r.Success? && fresh(r.value)
      && r.value.name == name && r.value.handle == ResolveHandle(created, attached).value
      && r.value.watchers == []
  {
    var h := ResolveHandle(created, attached);
    if h.Failure? {
      return Failure(h.error);
    }
    var b := new NATSBucket(name, h.value);
    return Success(b);
  }

  // ---------------------------------------------------------------------
  // Error translation of Get, Set and Delete
  // ---------------------------------------------------------------------

  /** The broker error a translated error came from, when it came from one. */
  function Cause(e: KvError): (r: Option<BrokerError>)
    ensures r.Some? <==> e.Broker? || e == KeyNotFound
  {
    match e
    case KeyNotFound => Some(BrokerKeyNotFound)
    case Broker(b) => Some(b)
    case Malformed => None
  }

  /** Translating a `Get` reply loses no information: the broker's error can be recovered. */
  lemma {:induction false} GetErrorRecoverable(reply: Result<Bytes, BrokerError>)
    requires reply.Failure?
    ensures NATSBucket.GetReply(reply).Failure?
    ensures Cause(NATSBucket.GetReply(reply).error) == Some(reply.error)
  {
  }

  /** `Set` and `Delete` never report the uniform not-found error: the broker's errors pass through untranslated. */
  lemma {:induction false} WriteNeverNotFound(reply: Outcome<BrokerError>)
    ensures NATSBucket.WriteReply(reply) != Fail(KeyNotFound)
    ensures NATSBucket.WriteReply(reply).Fail? ==> Cause(NATSBucket.WriteReply(reply).error) == Some(reply.error)
  {
  }

  // ---------------------------------------------------------------------
  // Translation of the broker's update stream
  // ---------------------------------------------------------------------

  /**
   * What the forwarding loop sends for one broker update: the broker's nil
   * becomes the end-of-replay marker, a purge is skipped, and every other
   * entry becomes a change carrying its key and value, with `Delete` for a
   * broker delete and the zero operation (`Put`) for everything else.
   */
  function TranslateUpdate(u: Update): (r: Option<Event>)
    ensures r.None? <==> u.Some? && u.value.op.OpPurge?
    ensures r == Some(Sentinel) <==> u.None?
    ensures r.Some? && r.value.Change? ==>
      && u.Some?
      && r.value.key == u.value.key
      && r.value.value == u.value.value
      && (r.value.op == Delete <==> u.value.op.OpDelete?)
      && (r.value.op == Put <==> !u.value.op.OpDelete?)
  {
    match u
    case None => Some(Sentinel)
    case Some(entry) =>
      match entry.op
      case OpPurge => None
      case OpDelete => Some(Change(entry.key, entry.value, Delete))
      case OpPut => Some(Change(entry.key, entry.value, Put))
      case OpOther(_) => Some(Change(entry.key, entry.value, Put))
  }

  /** The events sent for one update, as a sequence of length zero or one. */
  function Emitted(u: Update): seq<Event>
  {
    match TranslateUpdate(u)
    case None => []
    case Some(e) => [e]
  }

  /** Events sent for a whole stream of updates, in stream order. */
  function Translate(us: seq<Update>): (r: seq<Event>)
    ensures |r| <= |us|
  {
    if us == [] then [] else Emitted(us[0]) + Translate(us[1..])
  }

  predicate IsPurge(u: Update)
  {
    u.Some? && u.value.op.OpPurge?
  }

  /** Number of purges in a stream. */
  function Purges(us: seq<Update>): nat
  {
    if us == [] then 0 else (if IsPurge(us[0]) then 1 else 0) + Purges(us[1..])
  }

  /** Translation works update by update: the events of a concatenation are the concatenation of the events. */
  lemma {:induction false} TranslateAppend(a: seq<Update>, b: seq<Update>)
    ensures Translate(a + b) == Translate(a) + Translate(b)
  {
    if a == [] {
      assert a + b == b;
    } else {
      assert (a + b)[1..] == a[1..] + b;
      TranslateAppend(a[1..], b);
    }
  }

  /** Exactly the purges are dropped. */
  lemma {:induction false} TranslateLength(us: seq<Update>)
    ensures |Translate(us)| == |us| - Purges(us)
  {
    if us != [] {
      TranslateLength(us[1..]);
    }
  }

  /** In a stream without purges the i-th event is the translation of the i-th update. */
  lemma {:induction false} TranslatePointwise(us: seq<Update>)
    requires forall i | 0 <= i < |us| :: !IsPurge(us[i])
    ensures |Translate(us)| == |us|
    ensures forall i | 0 <= i < |us| :: TranslateUpdate(us[i]) == Some(Translate(us)[i])
  {
    if us != [] {
      TranslatePointwise(us[1..]);
      forall i | 0 <= i < |us|
        ensures TranslateUpdate(us[i]) == Some(Translate(us)[i])
      {
        if i > 0 {
          assert us[1..][i - 1] == us[i];
        }
      }
    }
  }

  /** Every event sent comes from some update of the stream: nothing is invented. */
  lemma {:induction false} TranslateSound(us: seq<Update>, e: Event)
    requires e in Translate(us)
    ensures exists i | 0 <= i < |us| :: TranslateUpdate(us[i]) == Some(e)
  {
    if e in Emitted(us[0]) {
      assert TranslateUpdate(us[0]) == Some(e);
    } else {
      TranslateSound(us[1..], e);
      var i :| 0 <= i < |us[1..]| && TranslateUpdate(us[1..][i]) == Some(e);
      assert us[i + 1] == us[1..][i];
    }
  }

  // ---------------------------------------------------------------------
  // Watchers
  // ---------------------------------------------------------------------

  /** The broker-side watcher, of which only "stopped or not" is observable. */
  class KeyWatcher {
    var stopped: bool

    constructor ()
      ensures !stopped
    {
      stopped := false;
    }
  }

  /** A watcher handed to a caller: its change queue, fed from one broker watcher. */
  class NATSWatcher {
    const bucket: NATSBucket
    const keyWatcher: KeyWatcher
    var changes: seq<Event>
    var closed: bool

    constructor (b: NATSBucket, kw: KeyWatcher)
      ensures bucket == b && keyWatcher == kw && changes == [] && !closed
    {
      bucket := b;
      keyWatcher := kw;
      changes := [];
      closed := false;
    }

    /**
     * The forwarding loop: every update the broker delivers, translated,
     * appended to the queue in order. Sending on a closed queue panics in
     * Go, so the queue must be open and the broker watcher still running.
     */
    method Forward(updates: seq<Update>)
      requires !closed && !keyWatcher.stopped
      modifies this
      ensures changes == old(changes) + Translate(updates)
      ensures closed == old(closed)
    {
      var i := 0;
      while i < |updates|
        invariant 0 <= i <= |updates|
        invariant changes == old(changes) + Translate(updates[..i])
        invariant closed == old(closed)
      {
        assert updates[..i + 1] == updates[..i] + [updates[i]];
        TranslateAppend(updates[..i], [updates[i]]);
        match TranslateUpdate(updates[i]) {
          case None =>
          case Some(e) =>
            changes := changes + [e];
        }
        i := i + 1;
      }
      assert updates[..i] == updates;
    }

    /**
     * Closes the queue and unregisters from the bucket. Events already
     * queued stay readable; closing an already closed queue is a panic in
     * Go, so the queue must still be open.
     */
    method Unwatch()
      requires !closed
      modifies this, bucket, keyWatcher
      ensures closed && changes == old(changes)
      ensures bucket.watchers == DropSharing(old(bucket.watchers), keyWatcher)
      ensures keyWatcher.stopped
    {
      closed := true;
      bucket.Unwatch(Some(this));
    }
  }

  /** The watchers of `ws` fed by another broker watcher than `kw`, in their original order. */
  function DropSharing(ws: seq<NATSWatcher>, kw: KeyWatcher): (r: seq<NATSWatcher>)
    ensures |r| <= |ws|
    ensures forall i | 0 <= i < |r| :: r[i] in ws && r[i].keyWatcher != kw
    ensures forall i | 0 <= i < |ws| :: ws[i].keyWatcher != kw ==> ws[i] in r
  {
    if ws == [] then []
    else if ws[0].keyWatcher == kw then DropSharing(ws[1..], kw)
    else [ws[0]] + DropSharing(ws[1..], kw)
  }

  /** Registering a watcher and unregistering it leaves the list as it was, when no other watcher shares its broker watcher. */
  lemma {:induction false} WatchThenUnwatch(ws: seq<NATSWatcher>, w: NATSWatcher)
    requires forall i | 0 <= i < |ws| :: ws[i].keyWatcher != w.keyWatcher
    ensures DropSharing(ws + [w], w.keyWatcher) == ws
  {
    if ws == [] {
      assert [w][1..] == [];
    } else {
      assert (ws + [w])[1..] == ws[1..] + [w];
      WatchThenUnwatch(ws[1..], w);
    }
  }

  // ---------------------------------------------------------------------
  // The bucket
  // ---------------------------------------------------------------------

  class NATSBucket {
    const name: string
    const handle: Handle
    var watchers: seq<NATSWatcher>

    constructor (n: string, h: Handle)
      ensures name == n && handle == h && watchers == []
    {
      name := n;
      handle := h;
      watchers := [];
    }

    /** `Get`: the broker's key-not-found becomes the uniform not-found error; other errors pass through. */
    static function GetReply(reply: Result<Bytes, BrokerError>): (r: Result<Bytes, KvError>)
      ensures r.Success? <==> reply.Success?
      ensures r.Success? ==> r.value == reply.value
      ensures r == Failure(KeyNotFound) <==> reply == Failure(BrokerKeyNotFound)
      ensures reply.Failure? && reply.error != BrokerKeyNotFound ==> r == Failure(Broker(reply.error))
    {
      match reply
      case Success(v) => Success(v)
      case Failure(BrokerKeyNotFound) => Failure(KeyNotFound)
      case Failure(e) => Failure(Broker(e))
    }

    /** `Set` and `Delete`: the broker's error, whatever it is, is returned unchanged. */
    static function WriteReply(reply: Outcome<BrokerError>): (r: Outcome<KvError>)
      ensures r.Pass? <==> reply.Pass?
      ensures reply.Fail? ==> r == Fail(Broker(reply.error))
    {
      match reply
      case Pass => Pass
      case Fail(e) => Fail(Broker(e))
    }

    /** `ListKeys`: every key the broker's lister yields, in the order it yields them. */
    method ListKeys(lister: Result<seq<string>, BrokerError>) returns (r: Result<seq<string>, KvError>)
      ensures lister.Failure? ==> r == Failure(Broker(lister.error))
      ensures lister.Success? ==> r == Success(lister.value)
    {
      if lister.Failure? {
        return Failure(Broker(lister.error));
      }
      var produced := lister.value;
      var keys: seq<string> := [];
      var i := 0;
      while i < |produced|
        invariant 0 <= i <= |produced|
        invariant keys == produced[..i]
      {
        keys := keys + [produced[i]];
        i := i + 1;
      }
      assert produced[..i] == produced;
      return Success(keys);
    }

    /** `WatchAll`: a new watcher over the broker watcher just started, appended to the list; or the broker's error and no change. */
    method WatchAll(started: Result<KeyWatcher, BrokerError>) returns (r: Result<NATSWatcher, KvError>)
      modifies this
      ensures started.Failure? ==> r == Failure(Broker(started.error)) && watchers == old(watchers)
      ensures started.Success? ==>
        && r.Success? && fresh(r.value)
        && r.value.bucket == this && r.value.keyWatcher == started.value
        && r.value.changes == [] && !r.value.closed
        && watchers == old(watchers) + [r.value]
    {
      if started.Failure? {
        return Failure(Broker(started.error));
      }
      var w := new NATSWatcher(this, started.value);
      watchers := watchers + [w];
      return Success(w);
    }

    /**
     * `Unwatch`: `None` stands for a watcher of another implementation, which
     * is ignored. Otherwise every registered watcher fed by the same broker
     * watcher is removed, and that broker watcher is stopped.
     */
    method Unwatch(w: Option<NATSWatcher>)
      modifies this, if w.Some? then {w.value.keyWatcher} else {}
      ensures w.None? ==> watchers == old(watchers)
      ensures w.Some? ==> watchers == DropSharing(old(watchers), w.value.keyWatcher) && w.value.keyWatcher.stopped
    {
      if w.None? {
        return;
      }
      watchers := DropSharing(watchers, w.value.keyWatcher);
      w.value.keyWatcher.stopped := true;
    }
  }
}
