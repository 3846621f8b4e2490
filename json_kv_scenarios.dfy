/**
 * The scenarios the key-value tests exercise, run against the JSON-document
 * store over an in-memory blob store, with their expected observations
 * proved.
 */
module JsonKvScenarios {
  import opened Wrappers
  import opened KvTypes
  import opened JsonKv
  import MemoryStorage

  /** The bytes of "test", "test2" and "test3". */
  const Test: Bytes := [0x74, 0x65, 0x73, 0x74]
  const Test2: Bytes := [0x74, 0x65, 0x73, 0x74, 0x32]
  const Test3: Bytes := [0x74, 0x65, 0x73, 0x74, 0x33]

  /** A client over an empty in-memory store. */
  method FreshClient(c: Codec) returns (client: JSONClient)
    ensures fresh(client) && fresh(client.store) && client.Valid() && client.buckets == map[]
  {
    var store := new MemoryStorage.Memory();
    var r := JSONClient.New(store, "test.json", c);
    client := r.value;
  }

  /** CRUD: the bucket carries its name; a value set is read back, is the only key listed, and deletes cleanly. */
  method Crud(c: Codec) returns (bname: string, got: Result<Bytes, KvError>, keys: seq<string>, deleted: Outcome<KvError>)
    ensures bname == "crud"
    ensures got == Success(Test)
    ensures keys == ["test"]
    ensures deleted == Pass
  {
    var client := FreshClient(c);
    var b := client.Bucket("crud");
    bname := b.name;
    b.Set("test", Test);
    got := b.Get("test");
    keys := b.ListKeys();
    assert keys[0] == "test";
    deleted := b.Delete("test");
  }

  /** Two `Bucket` calls with one name give the same bucket, so a write through one is read through the other. */
  method DoubleAccess(c: Codec) returns (same: bool, got: Result<Bytes, KvError>)
    ensures same
    ensures got == Success(Test)
  {
    var client := FreshClient(c);
    var b1 := client.Bucket("double-access");
    b1.Set("test", Test);
    var b2 := client.Bucket("double-access");
    same := b1 == b2;
    got := b2.Get("test");
  }

  /** A write to a bucket with one watcher: stored, and queued on that watcher. */
  method SetWatched(b: JSONBucket, w: JSONWatcher, key: string, value: Bytes)
    requires b.client.Valid() && b in b.client.buckets.Values && b.watchers == [w]
    modifies b, w, b.client.store
    ensures b.client.Valid() && b.watchers == [w]
    ensures b.data == old(b.data)[key := value]
    ensures w.changes == old(w.changes) + [Change(key, value, Put)]
  {
    b.Set(key, value);
    assert b.watchers[0] == w;
  }

  /** Removing a present key from a bucket with one watcher: removed, and queued on that watcher. */
  method DeleteWatched(b: JSONBucket, w: JSONWatcher, key: string)
    requires b.client.Valid() && b in b.client.buckets.Values && b.watchers == [w]
    requires key in b.data
    modifies b, w, b.client.store
    ensures b.client.Valid() && b.watchers == [w]
    ensures b.data == old(b.data) - {key}
    ensures w.changes == old(w.changes) + [Change(key, [], KvTypes.Delete)]
  {
    var _ := b.Delete(key);
    assert b.watchers[0] == w;
  }

  /** Watching a bucket with no watchers that holds one entry: that entry is replayed, then the marker. */
  method WatchSingleton(b: JSONBucket, key: string, value: Bytes) returns (w: JSONWatcher)
    requires b.client.Valid() && b in b.client.buckets.Values && b.watchers == []
    requires b.data == map[key := value]
    modifies b
    ensures fresh(w) && b.client.Valid() && b.watchers == [w] && b.data == old(b.data)
    ensures w.changes == [Change(key, value, Put), Sentinel]
  {
    w := b.WatchAll();
    assert w.changes[0].key in b.data;
  }

  /** The live part of the replay scenario: overwrite, delete, write again, each queued in order. */
  method ReplaceDeleteRewrite(b: JSONBucket, w: JSONWatcher)
    requires b.client.Valid() && b in b.client.buckets.Values && b.watchers == [w]
    requires "test" in b.data
    modifies b, w, b.client.store
    ensures w.changes == old(w.changes) + [Change("test", Test2, Put), Change("test", [], KvTypes.Delete), Change("test", Test3, Put)]
  {
    SetWatched(b, w, "test", Test2);
    DeleteWatched(b, w, "test");
    SetWatched(b, w, "test", Test3);
  }

  /** The live part of the watch scenario: write, read back, list, delete; the write and the delete are queued. */
  method PutReadDelete(b: JSONBucket, w: JSONWatcher)
    requires b.client.Valid() && b in b.client.buckets.Values && b.watchers == [w]
    modifies b, w, b.client.store
    ensures w.changes == old(w.changes) + [Change("test", Test, Put), Change("test", [], KvTypes.Delete)]
  {
    SetWatched(b, w, "test", Test);
    var _ := b.Get("test");
    var _ := b.ListKeys();
    DeleteWatched(b, w, "test");
  }

  /** Watching an empty bucket: the marker, then the Put, then the Delete. */
  method Watch(c: Codec) returns (events: seq<Event>)
    ensures events == [Sentinel, Change("test", Test, Put), Change("test", [], KvTypes.Delete)]
  {
    var client := FreshClient(c);
    var b := client.Bucket("watch");
    var w := b.WatchAll();
    assert w.changes == [Sentinel] && b.watchers == [w];
    PutReadDelete(b, w);
    events := w.changes;
  }

  /** Watching a bucket that already holds an entry: its replay, the marker, then the live changes in order. */
  method WatchReplay(c: Codec) returns (events: seq<Event>)
    ensures events == [
      Change("test", Test, Put), Sentinel,
      Change("test", Test2, Put), Change("test", [], KvTypes.Delete), Change("test", Test3, Put)]
  {
    var client := FreshClient(c);
    var b := client.Bucket("watch-replay");
    b.Set("test", Test);
    var w := WatchSingleton(b, "test", Test);
    ReplaceDeleteRewrite(b, w);
    events := w.changes;
  }

  /** Restart: a second client over the same store reads what the first one wrote. */
  method Resumability(c: Codec) returns (got: Result<Bytes, KvError>)
    requires RoundTrips(c)
    ensures got == Success(Test)
  {
    var store := new MemoryStorage.Memory();
    var r1 := JSONClient.New(store, "test.json", c);
    var first := r1.value;
    var b1 := first.Bucket("test");
    b1.Set("test", Test);
    var doc := first.Document();
    assert store.data["test.json"] == c.encode(doc);
    assert c.decode(c.encode(doc)) == Some(doc);
    var r2 := JSONClient.New(store, "test.json", c);
    var second := r2.value;
    assert second.Document()["test"].data == map["test" := Test];
    var b2 := second.Bucket("test");
    got := b2.Get("test");
  }
}
