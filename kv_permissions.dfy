/**
 * The key-value backed permission store: users and groups live under the
 * keys `users` and `groups` of the network's permissions bucket, each change
 * rewrites only the key it touched, and a watcher folds changes made by
 * other proxies back into memory.
 */
module KvPermissions {
  import opened Wrappers
  import opened KvTypes
  import opened PodInfos
  import opened Permissions

  type Users = map<string, PermissionUser>
  type Groups = map<string, PermissionGroup>

  /** Name of the bucket holding the permission documents. */
  function BucketName(info: PodInfo): (s: string)
    ensures s == KVNetworkKey(info) + "_permissions"
    ensures |s| > |KVNetworkKey(info)|
  {
    KVNetworkKey(info) + "_permissions"
  }

  // ---------------------------------------------------------------------
  // Applying watched changes
  // ---------------------------------------------------------------------

  /**
   * The in-memory documents as the watch loop sees them. `crashed` records
   * that a change did not decode: the loop then unlocks its mutex twice,
   * which stops the process, so nothing after it is applied.
   */
  datatype WatchState = WatchState(users: Users, groups: Groups, crashed: bool)

  /** One change seen by the watch loop. */
  function WatchStep(s: WatchState, e: Event, decodeUsers: Bytes -> Option<Users>, decodeGroups: Bytes -> Option<Groups>): (r: WatchState)
    requires !s.crashed
    ensures e.Sentinel? || (e.key != "users" && e.key != "groups") ==> r == s
    ensures e.Change? && e.key == "users" ==>
      if decodeUsers(e.value).Some?
      then r == s.(users := DecodeInto(s.users, decodeUsers(e.value).value))
      else r.crashed && r.groups == s.groups
    ensures e.Change? && e.key == "groups" ==>
      if decodeGroups(e.value).Some?
      then r == s.(groups := DecodeInto(s.groups, decodeGroups(e.value).value))
      else r.crashed && r.users == s.users
  {
    match e
    case Sentinel => s
    case Change(key, value, _) =>
      if key == "users" then
        match decodeUsers(value)
        case Some(m) => s.(users := DecodeInto(s.users, m))
        case None => s.(crashed := true)
      else if key == "groups" then
        match decodeGroups(value)
        case Some(m) => s.(groups := DecodeInto(s.groups, m))
        case None => s.(crashed := true)
      else s
  }

  /** The state after the watch loop has taken `events`, in order, from its queue. */
  function Watched(s: WatchState, events: seq<Event>, decodeUsers: Bytes -> Option<Users>, decodeGroups: Bytes -> Option<Groups>): WatchState
  {
    if events == [] then s
    else
      var prev := Watched(s, events[..|events| - 1], decodeUsers, decodeGroups);
      if prev.crashed then prev else WatchStep(prev, events[|events| - 1], decodeUsers, decodeGroups)
  }

  /** A change the watch loop cannot decode. */
  predicate Undecodable(e: Event, decodeUsers: Bytes -> Option<Users>, decodeGroups: Bytes -> Option<Groups>)
  {
    e.Change? && ((e.key == "users" && decodeUsers(e.value).None?) || (e.key == "groups" && decodeGroups(e.value).None?))
  }

  /** The loop stops exactly when some change does not decode. */
  lemma {:induction false} WatchedCrashesIffUndecodable(s: WatchState, events: seq<Event>, decodeUsers: Bytes -> Option<Users>, decodeGroups: Bytes -> Option<Groups>)
    requires !s.crashed
    ensures Watched(s, events, decodeUsers, decodeGroups).crashed <==>
      exists i | 0 <= i < |events| :: Undecodable(events[i], decodeUsers, decodeGroups)
  {
    if events != [] {
      var init := events[..|events| - 1];
      WatchedCrashesIffUndecodable(s, init, decodeUsers, decodeGroups);
      assert forall i | 0 <= i < |init| :: init[i] == events[i];
      if exists i | 0 <= i < |events| :: Undecodable(events[i], decodeUsers, decodeGroups) {
        var i :| 0 <= i < |events| && Undecodable(events[i], decodeUsers, decodeGroups);
        if i < |init| {
          assert Undecodable(init[i], decodeUsers, decodeGroups);
        }
      }
    }
  }

  /** Sentinels and keys other than `users` and `groups` change nothing. */
  lemma {:induction false} WatchedIgnoresOtherKeys(s: WatchState, events: seq<Event>, decodeUsers: Bytes -> Option<Users>, decodeGroups: Bytes -> Option<Groups>)
    requires !s.crashed
    requires forall i | 0 <= i < |events| :: events[i].Sentinel? || (events[i].key != "users" && events[i].key != "groups")
    ensures Watched(s, events, decodeUsers, decodeGroups) == s
  {
    if events != [] {
      WatchedIgnoresOtherKeys(s, events[..|events| - 1], decodeUsers, decodeGroups);
    }
  }

  /** Changes to `users` never touch the groups, and changes to `groups` never touch the users. */
  lemma {:induction false} WatchedKeepsUntouchedDocument(s: WatchState, events: seq<Event>, decodeUsers: Bytes -> Option<Users>, decodeGroups: Bytes -> Option<Groups>)
    requires !s.crashed
    ensures (forall i | 0 <= i < |events| :: events[i].Sentinel? || events[i].key != "groups") ==>
      Watched(s, events, decodeUsers, decodeGroups).groups == s.groups
    ensures (forall i | 0 <= i < |events| :: events[i].Sentinel? || events[i].key != "users") ==>
      Watched(s, events, decodeUsers, decodeGroups).users == s.users
  {
    if events != [] {
      var init := events[..|events| - 1];
      assert forall i | 0 <= i < |init| :: init[i] == events[i];
      WatchedKeepsUntouchedDocument(s, init, decodeUsers, decodeGroups);
    }
  }

  /** Once the loop has stopped, later changes are not applied. */
  lemma {:induction false} WatchedAppend(s: WatchState, a: seq<Event>, b: seq<Event>, decodeUsers: Bytes -> Option<Users>, decodeGroups: Bytes -> Option<Groups>)
    requires !s.crashed
    ensures Watched(s, a + b, decodeUsers, decodeGroups) == Watched(Watched(s, a, decodeUsers, decodeGroups), b, decodeUsers, decodeGroups)
      || Watched(s, a, decodeUsers, decodeGroups).crashed
    ensures Watched(s, a, decodeUsers, decodeGroups).crashed ==> Watched(s, a + b, decodeUsers, decodeGroups) == Watched(s, a, decodeUsers, decodeGroups)
  {
    if b != [] {
      assert (a + b)[..|a + b| - 1] == a + b[..|b| - 1];
      WatchedAppend(s, a, b[..|b| - 1], decodeUsers, decodeGroups);
    } else {
      assert a + b == a;
    }
  }

  class KVPermissions {
    const bucket: string
    const normalize: string -> string
    var users: Users
    var groups: Groups
    /** What the bucket last received under `users` and `groups`. */
    var storedUsers: Option<Users>
    var storedGroups: Option<Groups>

    /** A store with empty documents and nothing written yet. */
    constructor (b: string, norm: string -> string)
      ensures bucket == b && normalize == norm
      ensures users == map[] && groups == map[]
      ensures storedUsers == None && storedGroups == None
    {
      bucket := b;
      normalize := norm;
      users := map[];
      groups := map[];
      storedUsers := None;
      storedGroups := None;
    }

    /** The in-memory documents as one permission file, which the shared matchers read. */
    function Document(): (f: PermissionFile)
      reads this
      ensures f.users == users && f.groups == groups
    {
      PermissionFile(users, groups)
    }

    /**
     * `Reload`: each key is decoded into its document; a missing key resets
     * the document to empty; any other error is returned at once, so a
     * failure on `users` leaves `groups` as it was.
     */
    method Reload(usersLookup: Lookup<Users>, groupsLookup: Lookup<Groups>) returns (r: Outcome<KvError>)
      modifies this
      ensures storedUsers == old(storedUsers) && storedGroups == old(storedGroups)
      ensures usersLookup.LookupFailed? ==> r == Fail(usersLookup.error) && users == old(users) && groups == old(groups)
      ensures !usersLookup.LookupFailed? ==>
        && users == (if usersLookup.Found? then DecodeInto(old(users), usersLookup.value) else map[])
        && (groupsLookup.LookupFailed? ==> r == Fail(groupsLookup.error) && groups == old(groups))
        && (!groupsLookup.LookupFailed? ==> r == Pass && groups == (if groupsLookup.Found? then DecodeInto(old(groups), groupsLookup.value) else map[]))
    {
      match usersLookup {
        case Found(m) => users := DecodeInto(users, m);
        case KeyMissing => users := map[];
        case LookupFailed(e) => return Fail(e);
      }
      match groupsLookup {
        case Found(m) => groups := DecodeInto(groups, m);
        case KeyMissing => groups := map[];
        case LookupFailed(e) => return Fail(e);
      }
      return Pass;
    }

    /** `saveUsers`: writes the users document under its key; the groups key is not written. */
    method SaveUsers(written: Outcome<KvError>) returns (r: Outcome<KvError>)
      modifies this
      ensures r == written
      ensures storedUsers == (if written.Pass? then Some(users) else old(storedUsers))
      ensures storedGroups == old(storedGroups) && users == old(users) && groups == old(groups)
    {
      if written.Pass? {
        storedUsers := Some(users);
      }
      return written;
    }

    /** `saveGroups`: writes the groups document under its key; the users key is not written. */
    method SaveGroups(written: Outcome<KvError>) returns (r: Outcome<KvError>)
      modifies this
      ensures r == written
      ensures storedGroups == (if written.Pass? then Some(groups) else old(storedGroups))
      ensures storedUsers == old(storedUsers) && users == old(users) && groups == old(groups)
    {
      if written.Pass? {
        storedGroups := Some(groups);
      }
      return written;
    }

    /**
     * `UserAddPermission`: the entry is appended in memory even when the
     * write that follows fails; that write's error is returned.
     */
    method UserAddPermission(id: string, permission: string, written: Outcome<KvError>) returns (r: Outcome<KvError>)
      modifies this
      ensures users == UserAdd(old(users), normalize(id), permission) && groups == old(groups)
      ensures r == written
      ensures storedUsers == (if written.Pass? then Some(users) else old(storedUsers))
      ensures storedGroups == old(storedGroups)
    {
      users := UserAdd(users, normalize(id), permission);
      r := SaveUsers(written);
    }

    /** `GroupAddPermission`: the same for a group, whose name is used verbatim. */
    method GroupAddPermission(name: string, permission: string, written: Outcome<KvError>) returns (r: Outcome<KvError>)
      modifies this
      ensures groups == GroupAdd(old(groups), name, permission) && users == old(users)
      ensures r == written
      ensures storedGroups == (if written.Pass? then Some(groups) else old(storedGroups))
      ensures storedUsers == old(storedUsers)
    {
      groups := GroupAdd(groups, name, permission);
      r := SaveGroups(written);
    }

    /** `UserRemovePermission`: every occurrence is deleted in memory, then the users key is written. */
    method UserRemovePermission(id: string, permission: string, written: Outcome<KvError>) returns (r: Outcome<KvError>)
      modifies this
      ensures users == UserRemove(old(users), normalize(id), permission) && groups == old(groups)
      ensures r == written
      ensures storedUsers == (if written.Pass? then Some(users) else old(storedUsers))
      ensures storedGroups == old(storedGroups)
    {
      users := UserRemove(users, normalize(id), permission);
      r := SaveUsers(written);
    }

    /** `GroupRemovePermission`: every occurrence is deleted in memory, then the groups key is written. */
    method GroupRemovePermission(name: string, permission: string, written: Outcome<KvError>) returns (r: Outcome<KvError>)
      modifies this
      ensures groups == GroupRemove(old(groups), name, permission) && users == old(users)
      ensures r == written
      ensures storedGroups == (if written.Pass? then Some(groups) else old(storedGroups))
      ensures storedUsers == old(storedUsers)
    {
      groups := GroupRemove(groups, name, permission);
      r := SaveGroups(written);
    }

    /**
     * The watch loop of `NewKVPermissions`, run over the changes the watcher
     * delivers; returns whether it stopped on a change that did not decode.
     */
    method ApplyChanges(events: seq<Event>, decodeUsers: Bytes -> Option<Users>, decodeGroups: Bytes -> Option<Groups>) returns (crashed: bool)
      modifies this
      ensures WatchState(users, groups, crashed) == Watched(WatchState(old(users), old(groups), false), events, decodeUsers, decodeGroups)
      ensures storedUsers == old(storedUsers) && storedGroups == old(storedGroups)
    {
      ghost var start := WatchState(users, groups, false);
      crashed := false;
      var i := 0;
      while i < |events|
        invariant 0 <= i <= |events|
        invariant storedUsers == old(storedUsers) && storedGroups == old(storedGroups)
        invariant WatchState(users, groups, false) == Watched(start, events[..i], decodeUsers, decodeGroups)
      {
        assert events[..i + 1][..i] == events[..i];
        var e := events[i];
        if e.Change? && e.key == "users" {
          match decodeUsers(e.value) {
            case Some(m) => users := DecodeInto(users, m);
            case None =>
              crashed := true;
              WatchedAppend(start, events[..i + 1], events[i + 1..], decodeUsers, decodeGroups);
              assert events[..i + 1] + events[i + 1..] == events;
              return;
          }
        } else if e.Change? && e.key == "groups" {
          match decodeGroups(e.value) {
            case Some(m) => groups := DecodeInto(groups, m);
            case None =>
              crashed := true;
              WatchedAppend(start, events[..i + 1], events[i + 1..], decodeUsers, decodeGroups);
              assert events[..i + 1] + events[i + 1..] == events;
              return;
          }
        }
        i := i + 1;
      }
      assert events[..i] == events;
    }
  }

  /**
   * `NewKVPermissions`: opens the permissions bucket of the pod's network
   * and starts watching it; either failure is returned and no store exists.
   */
  method NewKVPermissions(info: PodInfo, norm: string -> string, bucketOpen: Outcome<KvError>, watching: Outcome<KvError>) returns (r: Result<KVPermissions, KvError>)
    ensures bucketOpen.Fail? ==> r == Failure(bucketOpen.error)
    ensures bucketOpen.Pass? && watching.Fail? ==> r == Failure(watching.error)
    ensures bucketOpen.Pass? && watching.Pass? ==>
      && r.Success? && fresh(r.value)
      && r.value.bucket == BucketName(info)
      && r.value.users == map[] && r.value.groups == map[]
  {
    if bucketOpen.Fail? {
      return Failure(bucketOpen.error);
    }
    var store := new KVPermissions(BucketName(info), norm);
    if watching.Fail? {
      return Failure(watching.error);
    }
    return Success(store);
  }

  /**
   * A change to `users` made by another proxy reaches this one: after the
   * replay marker and one `users` change carrying a fresh grant, the grant
   * is visible here and the groups are untouched.
   */
  method RemoteGrant(store: KVPermissions, player: string, decodeUsers: Bytes -> Option<Users>, decodeGroups: Bytes -> Option<Groups>, payload: Bytes)
      returns (crashed: bool, granted: Check)
    requires store.users == map[] && store.groups == map[]
    requires decodeUsers(payload) == Some(map[store.normalize(player) := PermissionUser([], ["proxy.kick"])])
    modifies store
    ensures !crashed && granted == Decided(true)
    ensures store.groups == map[]
  {
    var events := [Sentinel, Change("users", payload, Put)];
    ghost var start := WatchState(map[], map[], false);
    ghost var m := map[store.normalize(player) := PermissionUser([], ["proxy.kick"])];
    assert events[..1] == [Sentinel];
    assert [Sentinel][..0] == [];
    assert Watched(start, [Sentinel], decodeUsers, decodeGroups) == start;
    assert Watched(start, events, decodeUsers, decodeGroups) == start.(users := DecodeInto(map[], m));
    crashed := store.ApplyChanges(events, decodeUsers, decodeGroups);
    assert store.users == m;
    assert ListGrants(["proxy.kick"], "proxy.kick") == Decided(true);
    granted := UserHasPermission(store.Document(), store.normalize, player, "proxy.kick");
  }
}
