/** The in-memory blob store: a byte map that is never persisted. */
module MemoryStorage {
  import opened Wrappers
  import opened KvTypes

  /** `storage.ErrKeyNotFound`. */
  datatype StorageError = StorageKeyNotFound

  class Memory {
    var data: map<string, Bytes>

    /** `NewMemory`. */
    constructor ()
      ensures data == map[]
    {
      data := map[];
    }

    /** A missing key is reported as not found; a present key yields its bytes. */
    method Read(key: string) returns (r: Result<Bytes, StorageError>)
      ensures r.Success? <==> key in data
      ensures r.Success? ==> r.value == data[key]
      ensures r.Failure? ==> r.error == StorageKeyNotFound
    {
      if key !in data {
        return Failure(StorageKeyNotFound);
      }
      return Success(data[key]);
    }

    /**
     * The streaming read wraps the result of `Read` in a reader; the reader is
     * represented by the bytes it yields.
     */
    method ReadStreaming(key: string) returns (r: Result<Bytes, StorageError>)
      ensures r.Success? <==> key in data
      ensures r.Success? ==> r.value == data[key]
      ensures r.Failure? ==> r.error == StorageKeyNotFound
    {
      var v := Read(key);
      if v.Failure? {
        return Failure(v.error);
      }
      return Success(v.value);
    }

    /** Overwrites one key and leaves the others alone. */
    method Save(key: string, content: Bytes)
      modifies this
      ensures data == old(data)[key := content]
    {
      data := data[key := content];
    }

    /** A buffered writer: nothing reaches the map before `Close`. */
    method SaveStreaming(key: string) returns (w: WriteCloser)
      ensures fresh(w) && w.key == key && w.store == this && w.buffer == []
    {
      w := new WriteCloser(this, key);
    }

    /** Removes the key; an absent key is not an error. */
    method Delete(key: string) returns (r: Outcome<StorageError>)
      modifies this
      ensures data == old(data) - {key}
      ensures r == Pass
    {
      data := data - {key};
      return Pass;
    }
  }

  /** `writeCloser`: a `bytes.Buffer` bound to a key of a `Memory` store. */
  class WriteCloser {
    const store: Memory
    const key: string
    var buffer: Bytes

    constructor (m: Memory, k: string)
      ensures store == m && key == k && buffer == []
    {
      store := m;
      key := k;
      buffer := [];
    }

    /** `bytes.Buffer.Write` appends and never fails. */
    method Write(p: Bytes)
      modifies this
      ensures buffer == old(buffer) + p
    {
      buffer := buffer + p;
    }

    /** Commits the concatenation of every write, replacing any earlier value. */
    method Close() returns (r: Outcome<StorageError>)
      modifies store
      ensures store.data == old(store.data)[key := buffer]
      ensures r == Pass
    {
      store.data := store.data[key := buffer];
      return Pass;
    }
  }

  /** A streaming write is invisible until `Close`, which commits all of its writes. */
  method StreamingWriteScenario(m: Memory, key: string, a: Bytes, b: Bytes) returns (before: Result<Bytes, StorageError>, after: Result<Bytes, StorageError>)
    modifies m
    ensures before.Success? <==> key in old(m.data)
    ensures after == Success(a + b)
    ensures m.data == old(m.data)[key := a + b]
  {
    var w := m.SaveStreaming(key);
    w.Write(a);
    w.Write(b);
    assert w.buffer == a + b;
    before := m.Read(key);
    var _ := w.Close();
    after := m.Read(key);
  }
}
