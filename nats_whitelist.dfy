/**
 * The key-value backed whitelist: the flag lives under the key `enabled`
 * and the list under `whitelisted` in the network's whitelist bucket; a
 * change writes only the key it touched, and a watcher copies changes made
 * elsewhere into memory.
 */
module NatsWhitelist {
  import opened Wrappers
  import opened Collections
  import opened KvTypes
  import opened PodInfos
  import opened Whitelists

  /** Name of the bucket holding the whitelist keys. */
  function BucketName(info: PodInfo): (s: string)
    ensures s == KVNetworkKey(info) + "_whitelist"
    ensures |s| > |KVNetworkKey(info)|
  {
    KVNetworkKey(info) + "_whitelist"
  }

  // ---------------------------------------------------------------------
  // Applying watched changes
  // ---------------------------------------------------------------------

  /**
   * The in-memory whitelist as the watch loop sees it. `crashed` records
   * that a change did not decode: the loop then unlocks its mutex twice,
   * which stops the process, so nothing after it is applied.
   */
  datatype WatchState = WatchState(enabled: bool, whitelisted: seq<string>, crashed: bool)

  /** One change seen by the watch loop: a decoded value replaces the field for its key. */
  function WatchStep(s: WatchState, e: Event, decodeFlag: Bytes -> Option<bool>, decodeList: Bytes -> Option<seq<string>>): (r: WatchState)
    requires !s.crashed
    ensures e.Sentinel? || (e.key != "enabled" && e.key != "whitelisted") ==> r == s
    ensures e.Change? && e.key == "enabled" ==>
      if decodeFlag(e.value).Some? then r == s.(enabled := decodeFlag(e.value).value)
      else r.crashed && r.whitelisted == s.whitelisted
    ensures e.Change? && e.key == "whitelisted" ==>
      if decodeList(e.value).Some? then r == s.(whitelisted := decodeList(e.value).value)
      else r.crashed && r.enabled == s.enabled
  {
    match e
    case Sentinel => s
    case Change(key, value, _) =>
      if key == "enabled" then
        match decodeFlag(value)
        case Some(b) => s.(enabled := b)
        case None => s.(crashed := true)
      else if key == "whitelisted" then
        match decodeList(value)
        case Some(l) => s.(whitelisted := l)
        case None => s.(crashed := true)
      else s
  }

  /** The state after the watch loop has taken `events`, in order, from its queue. */
  function Watched(s: WatchState, events: seq<Event>, decodeFlag: Bytes -> Option<bool>, decodeList: Bytes -> Option<seq<string>>): WatchState
  {
    if events == [] then s
    else
      var prev := Watched(s, events[..|events| - 1], decodeFlag, decodeList);
      if prev.crashed then prev else WatchStep(prev, events[|events| - 1], decodeFlag, decodeList)
  }

  /**
   * The list carried by the last decodable `whitelisted` change among
   * `events`, or `initial` when there is none: the independent account of
   * "a change replaces the list".
   */
  function LastList(initial: seq<string>, events: seq<Event>, decodeList: Bytes -> Option<seq<string>>): seq<string>
  {
    if events == [] then initial
    else
      var e := events[|events| - 1];
      if e.Change? && e.key == "whitelisted" && decodeList(e.value).Some? then decodeList(e.value).value
      else LastList(initial, events[..|events| - 1], decodeList)
  }

  /** The flag carried by the last decodable `enabled` change, or `initial`. */
  function LastFlag(initial: bool, events: seq<Event>, decodeFlag: Bytes -> Option<bool>): bool
  {
    if events == [] then initial
    else
      var e := events[|events| - 1];
      if e.Change? && e.key == "enabled" && decodeFlag(e.value).Some? then decodeFlag(e.value).value
      else LastFlag(initial, events[..|events| - 1], decodeFlag)
  }

  /**
   * Unless the loop stopped, the whitelist it leaves is the last value
   * written to each key: changes replace, they do not merge.
   */
  lemma {:induction false} WatchedIsLastWrite(s: WatchState, events: seq<Event>, decodeFlag: Bytes -> Option<bool>, decodeList: Bytes -> Option<seq<string>>)
    requires !s.crashed
    ensures !Watched(s, events, decodeFlag, decodeList).crashed ==>
      && Watched(s, events, decodeFlag, decodeList).whitelisted == LastList(s.whitelisted, events, decodeList)
      && Watched(s, events, decodeFlag, decodeList).enabled == LastFlag(s.enabled, events, decodeFlag)
  {
    if events != [] {
      WatchedIsLastWrite(s, events[..|events| - 1], decodeFlag, decodeList);
    }
  }

  /** A change the watch loop cannot decode. */
  predicate Undecodable(e: Event, decodeFlag: Bytes -> Option<bool>, decodeList: Bytes -> Option<seq<string>>)
  {
    e.Change? && ((e.key == "enabled" && decodeFlag(e.value).None?) || (e.key == "whitelisted" && decodeList(e.value).None?))
  }

  /** The loop stops exactly when some change does not decode. */
  lemma {:induction false} WatchedCrashesIffUndecodable(s: WatchState, events: seq<Event>, decodeFlag: Bytes -> Option<bool>, decodeList: Bytes -> Option<seq<string>>)
    requires !s.crashed
    ensures Watched(s, events, decodeFlag, decodeList).crashed <==>
      exists i | 0 <= i < |events| :: Undecodable(events[i], decodeFlag, decodeList)
  {
    if events != [] {
      var init := events[..|events| - 1];
      WatchedCrashesIffUndecodable(s, init, decodeFlag, decodeList);
      assert forall i | 0 <= i < |init| :: init[i] == events[i];
      if exists i | 0 <= i < |events| :: Undecodable(events[i], decodeFlag, decodeList) {
        var i :| 0 <= i < |events| && Undecodable(events[i], decodeFlag, decodeList);
        if i < |init| {
          assert Undecodable(init[i], decodeFlag, decodeList);
        }
      }
    }
  }

  /** Once the loop has stopped, later changes are not applied. */
  lemma {:induction false} WatchedStaysCrashed(s: WatchState, a: seq<Event>, b: seq<Event>, decodeFlag: Bytes -> Option<bool>, decodeList: Bytes -> Option<seq<string>>)
    requires !s.crashed
    requires Watched(s, a, decodeFlag, decodeList).crashed
    ensures Watched(s, a + b, decodeFlag, decodeList) == Watched(s, a, decodeFlag, decodeList)
  {
    if b == [] {
      assert a + b == a;
    } else {
      assert (a + b)[..|a + b| - 1] == a + b[..|b| - 1];
      WatchedStaysCrashed(s, a, b[..|b| - 1], decodeFlag, decodeList);
    }
  }

  class NATSWhitelist {
    const bucket: string
    var enabled: bool
    var whitelisted: seq<string>
    /** What the bucket last received under `enabled` and `whitelisted`. */
    var storedEnabled: Option<bool>
    var storedWhitelisted: Option<seq<string>>

    /** A whitelist that is disabled and empty, with nothing written yet. */
    constructor (b: string)
      ensures bucket == b && !enabled && whitelisted == []
      ensures storedEnabled == None && storedWhitelisted == None
    {
      bucket := b;
      enabled := false;
      whitelisted := [];
      storedEnabled := None;
      storedWhitelisted := None;
    }

    /**
     * `Reload` as written: when `enabled` is missing the flag is cleared and
     * the list is reloaded (a missing list becomes empty); when `enabled`
     * is found, or its lookup fails, the method returns at once with that
     * result and the list is not read.
     */
    method Reload(flagLookup: Lookup<bool>, listLookup: Lookup<seq<string>>) returns (r: Outcome<KvError>)
      modifies this
      ensures storedEnabled == old(storedEnabled) && storedWhitelisted == old(storedWhitelisted)
      ensures flagLookup.Found? ==> r == Pass && enabled == flagLookup.value && whitelisted == old(whitelisted)
      ensures flagLookup.LookupFailed? ==> r == Fail(flagLookup.error) && enabled == old(enabled) && whitelisted == old(whitelisted)
      ensures flagLookup.KeyMissing? ==>
        && !enabled
        && (listLookup.Found? ==> r == Pass && whitelisted == listLookup.value)
        && (listLookup.KeyMissing? ==> r == Pass && whitelisted == [])
        && (listLookup.LookupFailed? ==> r == Fail(listLookup.error) && whitelisted == old(whitelisted))
    {
      match flagLookup {
        case KeyMissing => enabled := false;
        case Found(b) =>
          enabled := b;
          return Pass;
        case LookupFailed(e) => return Fail(e);
      }
      match listLookup {
        case Found(l) => whitelisted := l;
        case KeyMissing => whitelisted := [];
        case LookupFailed(e) => return Fail(e);
      }
      return Pass;
    }

    /** `saveEnabled`: writes the flag under its key; the list key is not written. */
    method SaveEnabled(written: Outcome<KvError>) returns (r: Outcome<KvError>)
      modifies this
      ensures r == written && enabled == old(enabled) && whitelisted == old(whitelisted)
      ensures storedEnabled == (if written.Pass? then Some(enabled) else old(storedEnabled))
      ensures storedWhitelisted == old(storedWhitelisted)
    {
      if written.Pass? {
        storedEnabled := Some(enabled);
      }
      return written;
    }

    /** `saveWhitelisted`: writes the list under its key; the flag key is not written. */
    method SaveWhitelisted(written: Outcome<KvError>) returns (r: Outcome<KvError>)
      modifies this
      ensures r == written && enabled == old(enabled) && whitelisted == old(whitelisted)
      ensures storedWhitelisted == (if written.Pass? then Some(whitelisted) else old(storedWhitelisted))
      ensures storedEnabled == old(storedEnabled)
    {
      if written.Pass? {
        storedWhitelisted := Some(whitelisted);
      }
      return written;
    }

    /** `IsEnabled`. */
    function IsEnabled(): (b: bool)
      reads this
      ensures b <==> enabled
    {
      enabled
    }

    /** `Contains`: whether the id is on the list. */
    function Contains(id: string): (b: bool)
      reads this
      ensures b <==> exists i | 0 <= i < |whitelisted| :: whitelisted[i] == id
    {
      Whitelists.Contains(whitelisted, id)
    }

    /** `AllWhitelisted`: a copy of the list, in its order. */
    function AllWhitelisted(): (copy: seq<string>)
      reads this
      ensures |copy| == |whitelisted| && forall i | 0 <= i < |copy| :: copy[i] == whitelisted[i]
    {
      [] + whitelisted
    }

    /** `Enable`: sets the flag and writes only the `enabled` key. */
    method Enable(written: Outcome<KvError>) returns (r: Outcome<KvError>)
      modifies this
      ensures enabled && whitelisted == old(whitelisted) && r == written
      ensures storedEnabled == (if written.Pass? then Some(true) else old(storedEnabled))
      ensures storedWhitelisted == old(storedWhitelisted)
    {
      enabled := true;
      r := SaveEnabled(written);
    }

    /** `Disable`: clears the flag and writes only the `enabled` key. */
    method Disable(written: Outcome<KvError>) returns (r: Outcome<KvError>)
      modifies this
      ensures !enabled && whitelisted == old(whitelisted) && r == written
      ensures storedEnabled == (if written.Pass? then Some(false) else old(storedEnabled))
      ensures storedWhitelisted == old(storedWhitelisted)
    {
      enabled := false;
      r := SaveEnabled(written);
    }

    /** `Add`: appends the id, even when already listed, and writes only the `whitelisted` key. */
    method Add(id: string, written: Outcome<KvError>) returns (r: Outcome<KvError>)
      modifies this
      ensures whitelisted == old(whitelisted) + [id] && enabled == old(enabled) && r == written
      ensures Contains(id)
      ensures storedWhitelisted == (if written.Pass? then Some(whitelisted) else old(storedWhitelisted))
      ensures storedEnabled == old(storedEnabled)
    {
      whitelisted := whitelisted + [id];
      AddContains(old(whitelisted), id, id);
      r := SaveWhitelisted(written);
    }

    /** `Remove`: deletes every occurrence of the id and writes only the `whitelisted` key. */
    method Remove(id: string, written: Outcome<KvError>) returns (r: Outcome<KvError>)
      modifies this
      ensures whitelisted == RemoveAll(old(whitelisted), id) && enabled == old(enabled) && r == written
      ensures !Contains(id)
      ensures forall v | v != id :: Contains(v) <==> old(Whitelists.Contains(whitelisted, v))
      ensures storedWhitelisted == (if written.Pass? then Some(whitelisted) else old(storedWhitelisted))
      ensures storedEnabled == old(storedEnabled)
    {
      whitelisted := RemoveAll(whitelisted, id);
      forall v | true
        ensures Whitelists.Contains(whitelisted, v) <==> v != id && Whitelists.Contains(old(whitelisted), v)
      {
        RemoveContains(old(whitelisted), id, v);
      }
      r := SaveWhitelisted(written);
    }

    /**
     * The watch loop of `NewNATSWhitelist`, run over the changes the watcher
     * delivers; returns whether it stopped on a change that did not decode.
     */
    method ApplyChanges(events: seq<Event>, decodeFlag: Bytes -> Option<bool>, decodeList: Bytes -> Option<seq<string>>) returns (crashed: bool)
      modifies this
      ensures WatchState(enabled, whitelisted, crashed) == Watched(WatchState(old(enabled), old(whitelisted), false), events, decodeFlag, decodeList)
      ensures storedEnabled == old(storedEnabled) && storedWhitelisted == old(storedWhitelisted)
    {
      ghost var start := WatchState(enabled, whitelisted, false);
      crashed := false;
      var i := 0;
      while i < |events|
        invariant 0 <= i <= |events|
        invariant storedEnabled == old(storedEnabled) && storedWhitelisted == old(storedWhitelisted)
        invariant WatchState(enabled, whitelisted, false) == Watched(start, events[..i], decodeFlag, decodeList)
      {
        assert events[..i + 1][..i] == events[..i];
        var e := events[i];
        if e.Change? && e.key == "enabled" {
          match decodeFlag(e.value) {
            case Some(b) => enabled := b;
            case None =>
              crashed := true;
              WatchedStaysCrashed(start, events[..i + 1], events[i + 1..], decodeFlag, decodeList);
              assert events[..i + 1] + events[i + 1..] == events;
              return;
          }
        } else if e.Change? && e.key == "whitelisted" {
          match decodeList(e.value) {
            case Some(l) => whitelisted := l;
            case None =>
              crashed := true;
              WatchedStaysCrashed(start, events[..i + 1], events[i + 1..], decodeFlag, decodeList);
              assert events[..i + 1] + events[i + 1..] == events;
              return;
          }
        }
        i := i + 1;
      }
      assert events[..i] == events;
    }
  }

  /**
   * `NewNATSWhitelist`: opens the whitelist bucket of the pod's network and
   * starts watching it; either failure is returned and no whitelist exists.
   */
  method NewNATSWhitelist(info: PodInfo, bucketOpen: Outcome<KvError>, watching: Outcome<KvError>) returns (r: Result<NATSWhitelist, KvError>)
    ensures bucketOpen.Fail? ==> r == Failure(bucketOpen.error)
    ensures bucketOpen.Pass? && watching.Fail? ==> r == Failure(watching.error)
    ensures bucketOpen.Pass? && watching.Pass? ==>
      && r.Success? && fresh(r.value)
      && r.value.bucket == BucketName(info)
      && !r.value.enabled && r.value.whitelisted == []
  {
    if bucketOpen.Fail? {
      return Failure(bucketOpen.error);
    }
    var w := new NATSWhitelist(BucketName(info));
    if watching.Fail? {
      return Failure(watching.error);
    }
    return Success(w);
  }

  /**
   * `Reload` with both keys stored: the flag is read and the stored list is
   * never reached, so the list in memory stays as it was.
   */
  method ReloadSkipsList(w: NATSWhitelist, stored: seq<string>) returns (r: Outcome<KvError>)
    requires w.whitelisted == [] && stored != []
    modifies w
    ensures r == Pass && w.enabled && w.whitelisted == [] && w.whitelisted != stored
  {
    r := w.Reload(Found(true), Found(stored));
  }
}
