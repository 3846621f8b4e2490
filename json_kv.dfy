/**
 * The key-value store layered on a blob store: named buckets held in memory,
 * each with its watchers, and the whole multi-bucket document rewritten to
 * the blob store after every mutation.
 */
module JsonKv {
  import opened Wrappers
  import opened KvTypes
  import opened Collections
  import MemoryStorage

  /** One bucket as it appears in the persisted document: `{name, data}`. */
  datatype BucketDoc = BucketDoc(name: string, data: map<string, Bytes>)

  /** The persisted document: bucket name to bucket record. */
  type Document = map<string, BucketDoc>

  /** The JSON codec, left abstract: an encoder and a partial decoder. */
  datatype Codec = Codec(encode: Document -> Bytes, decode: Bytes -> Option<Document>)

  /** Decoding what was encoded gives back the document. */
  ghost predicate RoundTrips(c: Codec)
  {
    forall d: Document {:trigger c.encode(d)} :: c.decode(c.encode(d)) == Some(d)
  }

  /**
   * A watcher queue freshly filled by `WatchAll`: one Put per entry of `data`
   * (each key once, in some order) and then the end-of-replay marker.
   */
  ghost predicate IsReplay(q: seq<Event>, data: map<string, Bytes>)
  {
    && |q| == |data| + 1
    && q[|data|] == Sentinel
    && (forall i | 0 <= i < |data| :: q[i].Change? && q[i].op == Put && q[i].key in data && q[i].value == data[q[i].key])
    && (forall i, j | 0 <= i < j < |data| :: q[i].key != q[j].key)
  }

  /** Keys of the first `n` events of `q` (all of which are changes). */
  ghost function KeysOf(q: seq<Event>, n: nat): set<string>
    requires n <= |q|
    requires forall i | 0 <= i < n :: q[i].Change?
  {
    set i | 0 <= i < n :: q[i].key
  }

  lemma {:induction false} KeysOfCard(q: seq<Event>, n: nat)
    requires n <= |q|
    requires forall i | 0 <= i < n :: q[i].Change?
    requires forall i, j | 0 <= i < j < n :: q[i].key != q[j].key
    ensures |KeysOf(q, n)| == n
  {
    if n > 0 {
      KeysOfCard(q, n - 1);
      assert KeysOf(q, n) == KeysOf(q, n - 1) + {q[n - 1].key};
      assert q[n - 1].key !in KeysOf(q, n - 1);
    }
  }

  lemma {:induction false} SubsetCard<T>(a: set<T>, b: set<T>)
    requires a <= b && |a| == |b|
    ensures a == b
  {
    if a != b {
      var x :| x in b && x !in a;
      assert a <= b - {x};
      SubsetCardLe(a, b - {x});
    }
  }

  lemma {:induction false} SubsetCardLe<T>(a: set<T>, b: set<T>)
    requires a <= b
    ensures |a| <= |b|
  {
    if a != {} {
      var x :| x in a;
      SubsetCardLe(a - {x}, b - {x});
    }
  }

  /** The replay queue names every entry of the bucket exactly once. */
  lemma ReplayCoversEveryEntry(q: seq<Event>, data: map<string, Bytes>, k: string)
    requires IsReplay(q, data)
    requires k in data
    ensures exists i | 0 <= i < |data| :: q[i] == Change(k, data[k], Put)
  {
    KeysOfCard(q, |data|);
    SubsetCard(KeysOf(q, |data|), data.Keys);
    assert k in KeysOf(q, |data|);
  }

  class JSONWatcher {
    const bucket: JSONBucket
    /** The channel's contents, oldest first. */
    var changes: seq<Event>
    var closed: bool

    constructor (b: JSONBucket)
      ensures bucket == b && changes == [] && !closed
    {
      bucket := b;
      changes := [];
      closed := false;
    }

    /** `Changes`: the queue the consumer reads from. */
    function Changes(): (q: seq<Event>)
      reads this
      ensures q == changes
    {
      changes
    }

    /**
     * Closes the queue (what is already queued stays readable) and removes
     * this watcher from its bucket. Closing twice panics in Go.
     */
    method Unwatch()
      requires !closed
      requires bucket.client.Valid() && bucket in bucket.client.buckets.Values
      modifies this, bucket
      ensures bucket.client.Valid()
      ensures closed && changes == old(changes)
      ensures bucket.data == old(bucket.data)
      ensures bucket.watchers == RemoveAll(old(bucket.watchers), this)
    {
      closed := true;
      bucket.Unwatch(Some(this));
    }
  }

  class JSONBucket {
    const client: JSONClient
    const name: string
    var data: map<string, Bytes>
    var watchers: seq<JSONWatcher>

    constructor (c: JSONClient, n: string, d: map<string, Bytes>)
      ensures client == c && name == n && data == d && watchers == []
    {
      client := c;
      name := n;
      data := d;
      watchers := [];
    }

    /** Every registered watcher belongs to this bucket, and none is registered twice. */
    ghost predicate WatchersOk()
      reads this
    {
      && (forall i | 0 <= i < |watchers| :: watchers[i].bucket == this)
      && Distinct(watchers)
    }

    method Get(key: string) returns (r: Result<Bytes, KvError>)
      ensures r.Success? <==> key in data
      ensures r.Success? ==> r.value == data[key]
      ensures r.Failure? ==> r.error == KeyNotFound
    {
      if key !in data {
        return Failure(KeyNotFound);
      }
      return Success(data[key]);
    }

    /**
     * Stores the value, queues one Put on every watcher, then rewrites the
     * whole document.
     */
    method Set(key: string, value: Bytes)
      requires client.Valid() && this in client.buckets.Values
      modifies this, watchers, client.store
      ensures client.Valid() && client.Persisted()
      ensures data == old(data)[key := value]
      ensures watchers == old(watchers)
      ensures forall i | 0 <= i < |watchers| :: watchers[i].changes == old(watchers[i].changes) + [Change(key, value, Put)]
      ensures forall i | 0 <= i < |watchers| :: watchers[i].closed == old(watchers[i].closed)
    {
      data := data[key := value];
      Broadcast(Change(key, value, Put));
      client.Save();
    }

    /** Pushes one event onto every registered watcher's queue, in list order. */
    method Broadcast(e: Event)
      requires client.Valid() && this in client.buckets.Values
      modifies watchers
      ensures client.Valid()
      ensures forall i | 0 <= i < |watchers| :: watchers[i].changes == old(watchers[i].changes) + [e]
      ensures forall i | 0 <= i < |watchers| :: watchers[i].closed == old(watchers[i].closed)
    {
      assert WatchersOk();
      var i := 0;
      while i < |watchers|
        invariant 0 <= i <= |watchers|
        invariant forall j | 0 <= j < i :: watchers[j].changes == old(watchers[j].changes) + [e]
        invariant forall j | i <= j < |watchers| :: watchers[j].changes == old(watchers[j].changes)
        invariant forall j | 0 <= j < |watchers| :: watchers[j].closed == old(watchers[j].closed)
      {
        watchers[i].changes := watchers[i].changes + [e];
        i := i + 1;
      }
    }

    /**
     * An absent key is not found and nothing happens; a present key is
     * removed, a Delete is queued on every watcher, and the document is rewritten.
     */
    method Delete(key: string) returns (r: Outcome<KvError>)
      requires client.Valid() && this in client.buckets.Values
      modifies this, watchers, client.store
      ensures client.Valid()
      ensures watchers == old(watchers)
      ensures forall i | 0 <= i < |watchers| :: watchers[i].closed == old(watchers[i].closed)
      ensures key !in old(data) ==>
        && r == Fail(KeyNotFound)
        && data == old(data)
        && client.store.data == old(client.store.data)
        && (forall i | 0 <= i < |watchers| :: watchers[i].changes == old(watchers[i].changes))
      ensures key in old(data) ==>
        && r == Pass
        && data == old(data) - {key}
        && client.Persisted()
        && (forall i | 0 <= i < |watchers| :: watchers[i].changes == old(watchers[i].changes) + [Change(key, [], KvTypes.Delete)])
    {
      if key !in data {
        return Fail(KeyNotFound);
      }
      data := data - {key};
      Broadcast(Change(key, [], KvTypes.Delete));
      client.Save();
      return Pass;
    }

    /** Each key of the bucket exactly once, in map iteration order. */
    method ListKeys() returns (keys: seq<string>)
      ensures forall k :: k in keys <==> k in data
      ensures Distinct(keys)
      ensures |keys| == |data|
    {
      keys := MapKeys(data);
    }

    /**
     * Registers a new watcher whose queue already holds the replay of the
     * current entries followed by the end-of-replay marker.
     */
    method WatchAll() returns (w: JSONWatcher)
      requires client.Valid() && this in client.buckets.Values
      modifies this
      ensures client.Valid()
      ensures fresh(w) && w.bucket == this && !w.closed
      ensures data == old(data)
      ensures watchers == old(watchers) + [w]
      ensures IsReplay(w.changes, data)
    {
      w := new JSONWatcher(this);
      watchers := watchers + [w];
      assert WatchersOk();
      var rest := data.Keys;
      while rest != {}
        invariant data == old(data) && watchers == old(watchers) + [w]
        invariant client.Valid() && w.bucket == this && !w.closed
        invariant rest <= data.Keys
        invariant |w.changes| + |rest| == |data|
        invariant forall i | 0 <= i < |w.changes| :: w.changes[i].Change? && w.changes[i].op == Put && w.changes[i].key in data && w.changes[i].key !in rest && w.changes[i].value == data[w.changes[i].key]
        invariant forall i, j | 0 <= i < j < |w.changes| :: w.changes[i].key != w.changes[j].key
        decreases |rest|
      {
        var k :| k in rest;
        w.changes := w.changes + [Change(k, data[k], Put)];
        rest := rest - {k};
      }
      w.changes := w.changes + [Sentinel];
    }

    /**
     * Drops every registration of `w` (matched by its queue) and keeps the
     * rest in order. `None` stands for a watcher of another implementation,
     * which is ignored.
     */
    method Unwatch(w: Option<JSONWatcher>)
      requires client.Valid() && this in client.buckets.Values
      modifies this
      ensures client.Valid()
      ensures data == old(data)
      ensures w.None? ==> watchers == old(watchers)
      ensures w.Some? ==> watchers == RemoveAll(old(watchers), w.value)
    {
      if w.None? {
        return;
      }
      watchers := RemoveAll(watchers, w.value);
      assert forall i | 0 <= i < |watchers| :: watchers[i] in old(watchers);
      RemoveAllDistinct(old(watchers), w.value);
    }
  }

  lemma {:induction false} RemoveAllDistinct<T>(s: seq<T>, x: T)
    requires Distinct(s)
    ensures Distinct(RemoveAll(s, x))
  {
    if s != [] {
      RemoveAllDistinct(s[1..], x);
      if s[0] != x {
        var r := RemoveAll(s, x);
        assert r == [s[0]] + RemoveAll(s[1..], x);
        forall i, j | 0 <= i < j < |r| ensures r[i] != r[j] {
          if i == 0 {
            assert r[j] in s[1..];
          }
        }
      }
    }
  }

  class JSONClient {
    const fileName: string
    const store: MemoryStorage.Memory
    const codec: Codec
    var buckets: map<string, JSONBucket>

    constructor Empty(s: MemoryStorage.Memory, f: string, c: Codec)
      ensures store == s && fileName == f && codec == c && buckets == map[]
    {
      store := s;
      fileName := f;
      codec := c;
      buckets := map[];
    }

    /** Every bucket is a distinct object that saves through this client. */
    ghost predicate Valid()
      reads this, buckets.Values
    {
      && (forall k | k in buckets :: buckets[k].client == this && buckets[k].WatchersOk())
      && (forall k1, k2 | k1 in buckets && k2 in buckets && k1 != k2 :: buckets[k1] != buckets[k2])
    }

    /** The document this client would write: every bucket's name and entries. */
    function Document(): (d: Document)
      reads this, buckets.Values
      ensures d.Keys == buckets.Keys
      ensures forall k | k in d :: d[k] == BucketDoc(buckets[k].name, buckets[k].data)
    {
      map k | k in buckets :: BucketDoc(buckets[k].name, buckets[k].data)
    }

    /** The blob store holds exactly the encoding of the current buckets. */
    ghost predicate Persisted()
      reads this, buckets.Values, store
    {
      fileName in store.data && store.data[fileName] == codec.encode(Document())
    }

    /** Rewrites the whole document through a streaming write. */
    method Save()
      modifies store
      ensures store.data == old(store.data)[fileName := codec.encode(Document())]
    {
      var fd := store.SaveStreaming(fileName);
      fd.Write(codec.encode(Document()));
      assert fd.buffer == codec.encode(Document());
      var _ := fd.Close();
    }

    /**
     * `NewJSONClient` and `init`: a store without the document gets an empty
     * one written; a present document is decoded into fresh buckets with no
     * watchers, and nothing is written; an undecodable one is an error.
     */
    static method New(s: MemoryStorage.Memory, f: string, c: Codec) returns (r: Result<JSONClient, KvError>)
      modifies s
      ensures r.Success? ==> fresh(r.value) && r.value.store == s && r.value.fileName == f && r.value.codec == c && r.value.Valid()
      ensures r.Success? ==> forall k | k in r.value.buckets :: fresh(r.value.buckets[k]) && r.value.buckets[k].watchers == []
      ensures f !in old(s.data) ==>
        && r.Success? && r.value.buckets == map[]
        && s.data == old(s.data)[f := c.encode(map[])]
        && r.value.Persisted()
      ensures f in old(s.data) ==> s.data == old(s.data)
      ensures f in old(s.data) && c.decode(old(s.data)[f]).None? ==> r == Failure(Malformed)
      ensures f in old(s.data) && c.decode(old(s.data)[f]).Some? ==> r.Success? && r.value.Document() == c.decode(old(s.data)[f]).value
    {
      var client := new JSONClient.Empty(s, f, c);
      var raw := s.ReadStreaming(f);
      if raw.Failure? {
        client.Save();
        assert client.Document() == map[];
        return Success(client);
      }
      var decoded := c.decode(raw.value);
      if decoded.None? {
        return Failure(Malformed);
      }
      client.Restore(decoded.value);
      return Success(client);
    }

    /** Replaces the bucket map by fresh buckets built from `doc`. */
    method Restore(doc: Document)
      modifies this
      ensures Valid() && Document() == doc
      ensures forall k | k in buckets :: fresh(buckets[k]) && buckets[k].watchers == []
    {
      buckets := map[];
      var rest := doc.Keys;
      while rest != {}
        invariant rest <= doc.Keys
        invariant buckets.Keys == doc.Keys - rest
        invariant forall k | k in buckets :: fresh(buckets[k]) && buckets[k].watchers == [] && buckets[k].client == this
        invariant forall k | k in buckets :: buckets[k].name == doc[k].name && buckets[k].data == doc[k].data
        invariant Valid()
        decreases |rest|
      {
        var k :| k in rest;
        var b := new JSONBucket(this, doc[k].name, doc[k].data);
        buckets := buckets[k := b];
        rest := rest - {k};
      }
    }

    /**
     * Returns the bucket of that name, creating an empty one when it is
     * absent; either way the document is rewritten.
     */
    method Bucket(name: string) returns (b: JSONBucket)
      requires Valid()
      modifies this, store
      ensures Valid() && Persisted()
      ensures name in buckets && b == buckets[name]
      ensures name in old(buckets) ==> buckets == old(buckets)
      ensures name !in old(buckets) ==>
        && fresh(b) && b.name == name && b.data == map[] && b.watchers == []
        && buckets == old(buckets)[name := b]
    {
      if name in buckets {
        b := buckets[name];
      } else {
        b := new JSONBucket(this, name, map[]);
        buckets := buckets[name := b];
      }
      Save();
    }
  }
}
