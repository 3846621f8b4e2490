/**
 * The file-backed whitelist: an enabled flag and a list of player ids, the
 * whole document rewritten to its file after every change. File I/O is
 * outside the model; `saved` is what the file holds.
 */
module FsWhitelist {
  import opened Wrappers
  import opened Collections
  import opened Whitelists
  import opened FileStore

  /** The file's JSON document. */
  datatype WhitelistDoc = WhitelistDoc(enabled: bool, whitelisted: seq<string>)

  /** A decoded file: a field absent from the JSON leaves the current value in place. */
  datatype DecodedDoc = DecodedDoc(enabled: Option<bool>, whitelisted: Option<seq<string>>)

  /** What opening and decoding the file gave. */
  datatype Stored = Missing | Unreadable(code: int) | Found(doc: DecodedDoc)

  class FSWhitelist {
    const fileName: string
    var enabled: bool
    var whitelisted: seq<string>
    var saved: OnDisk<WhitelistDoc>

    /** A whitelist that is disabled and empty, before its first reload. */
    constructor (name: string)
      ensures fileName == name && !enabled && whitelisted == [] && saved == Absent
    {
      fileName := name;
      enabled := false;
      whitelisted := [];
      saved := Absent;
    }

    function Document(): (d: WhitelistDoc)
      reads this
      ensures d.enabled == enabled && d.whitelisted == whitelisted
    {
      WhitelistDoc(enabled, whitelisted)
    }

    /**
     * `save`: truncates the file and encodes the document into it. A failed
     * open leaves the file as it was; a failure after the truncating open
     * leaves it damaged.
     */
    method Save(written: Write) returns (r: Outcome<StoreError>)
      modifies this
      ensures r == WriteOutcome(written) && enabled == old(enabled) && whitelisted == old(whitelisted)
      ensures saved == Rewrite(old(saved), written, Document())
    {
      saved := Rewrite(saved, written, Document());
      return WriteOutcome(written);
    }

    /**
     * `Reload`: a missing file is created with the current document, an
     * unreadable one is an error, and the fields present in the file
     * replace the current ones.
     */
    method Reload(stored: Stored, written: Write) returns (r: Outcome<StoreError>)
      modifies this
      ensures stored.Missing? ==>
        && r == WriteOutcome(written) && Document() == old(Document())
        && saved == Rewrite(old(saved), written, Document())
      ensures stored.Unreadable? ==> r == Fail(StoreError(stored.code)) && Document() == old(Document()) && saved == old(saved)
      ensures stored.Found? ==>
        && r == Pass && saved == old(saved)
        && enabled == (if stored.doc.enabled.Some? then stored.doc.enabled.value else old(enabled))
        && whitelisted == (if stored.doc.whitelisted.Some? then stored.doc.whitelisted.value else old(whitelisted))
    {
      match stored {
        case Missing =>
          r := Save(written);
          return;
        case Unreadable(code) =>
          return Fail(StoreError(code));
        case Found(doc) =>
          if doc.enabled.Some? {
            enabled := doc.enabled.value;
          }
          if doc.whitelisted.Some? {
            whitelisted := doc.whitelisted.value;
          }
      }
      return Pass;
    }

    /** `IsEnabled`. */
    function IsEnabled(): (b: bool)
      reads this
      ensures b <==> enabled
    {
      enabled
    }

    /** `Contains`: whether the id is on the list. */
    function Contains(id: string): (b: bool)
      reads this
      ensures b <==> exists i | 0 <= i < |whitelisted| :: whitelisted[i] == id
    {
      Whitelists.Contains(whitelisted, id)
    }

    /** `AllWhitelisted`: a copy of the list, in its order. */
    function AllWhitelisted(): (copy: seq<string>)
      reads this
      ensures |copy| == |whitelisted| && forall i | 0 <= i < |copy| :: copy[i] == whitelisted[i]
    {
      [] + whitelisted
    }

    /** `Enable`: the flag is set, the list is untouched, and the file is rewritten. */
    method Enable(written: Write) returns (r: Outcome<StoreError>)
      modifies this
      ensures enabled && whitelisted == old(whitelisted)
      ensures r == WriteOutcome(written) && saved == Rewrite(old(saved), written, Document())
    {
      enabled := true;
      r := Save(written);
    }

    /** `Disable`: the flag is cleared, the list is untouched, and the file is rewritten. */
    method Disable(written: Write) returns (r: Outcome<StoreError>)
      modifies this
      ensures !enabled && whitelisted == old(whitelisted)
      ensures r == WriteOutcome(written) && saved == Rewrite(old(saved), written, Document())
    {
      enabled := false;
      r := Save(written);
    }

    /** `Add`: appends the id, even when it is already listed. */
    method Add(id: string, written: Write) returns (r: Outcome<StoreError>)
      modifies this
      ensures whitelisted == old(whitelisted) + [id] && enabled == old(enabled)
      ensures Contains(id)
      ensures r == WriteOutcome(written) && saved == Rewrite(old(saved), written, Document())
    {
      whitelisted := whitelisted + [id];
      AddContains(old(whitelisted), id, id);
      r := Save(written);
    }

    /** `Remove`: deletes every occurrence of the id and keeps the others in order. */
    method Remove(id: string, written: Write) returns (r: Outcome<StoreError>)
      modifies this
      ensures whitelisted == RemoveAll(old(whitelisted), id) && enabled == old(enabled)
      ensures !Contains(id)
      ensures forall v | v != id :: Contains(v) <==> old(Whitelists.Contains(whitelisted, v))
      ensures r == WriteOutcome(written) && saved == Rewrite(old(saved), written, Document())
    {
      whitelisted := RemoveAll(whitelisted, id);
      forall v | true
        ensures Whitelists.Contains(whitelisted, v) <==> v != id && Whitelists.Contains(old(whitelisted), v)
      {
        RemoveContains(old(whitelisted), id, v);
      }
      r := Save(written);
    }
  }

  /** `NewFSWhitelist`: a disabled, empty whitelist, then reloaded; a failed reload yields none. */
  method NewFSWhitelist(name: string, stored: Stored, written: Write) returns (r: Result<FSWhitelist, StoreError>)
    ensures stored.Unreadable? ==> r == Failure(StoreError(stored.code))
    ensures stored.Missing? ==>
      (if written.Written? then r.Success? && r.value.saved == Intact(WhitelistDoc(false, [])) else r == Failure(WriteOutcome(written).error))
    ensures r.Success? ==> fresh(r.value) && r.value.fileName == name
    ensures stored.Found? ==>
      && r.Success?
      && r.value.enabled == (stored.doc.enabled.Some? && stored.doc.enabled.value)
      && r.value.whitelisted == (if stored.doc.whitelisted.Some? then stored.doc.whitelisted.value else [])
  {
    var w := new FSWhitelist(name);
    var loaded := w.Reload(stored, written);
    if loaded.Fail? {
      return Failure(loaded.error);
    }
    return Success(w);
  }

  /** An id is admitted after `Add` and refused after `Remove`, even when it was added twice. */
  method AddRemove(id: string, other: string) returns (afterAdd: bool, afterRemove: bool, otherKept: bool)
    requires id != other
    ensures afterAdd && !afterRemove && otherKept
  {
    var w := new FSWhitelist("whitelist.json");
    var _ := w.Add(other, Written);
    var _ := w.Add(id, Written);
    var _ := w.Add(id, Written);
    afterAdd := w.Contains(id);
    var _ := w.Remove(id, Written);
    afterRemove := w.Contains(id);
    otherKept := w.Contains(other);
  }
}
