/**
 * The file-backed permission store: the whole permission document held in
 * memory and rewritten to its file after every change. File I/O is outside
 * the model; `saved` is what the file holds.
 */
module FsPermissions {
  import opened Wrappers
  import opened Collections
  import opened Permissions
  import opened FileStore

  /** What reading the permissions file gave. */
  datatype Stored = Missing | Unreadable(code: int) | Found(doc: PermissionFile)

  const Empty := PermissionFile(map[], map[])

  class FSPermissions {
    const name: string
    const normalize: string -> string
    var file: PermissionFile
    var saved: OnDisk<PermissionFile>

    /** `ReadFile` before its reload: empty user and group maps; the file has not been touched yet. */
    constructor (n: string, norm: string -> string)
      ensures name == n && normalize == norm && file == Empty && saved == Absent
    {
      name := n;
      normalize := norm;
      file := Empty;
      saved := Absent;
    }

    /**
     * `Save`: truncates the file and encodes the current document into it;
     * `written` is what that attempt gave. A failed open leaves the file as
     * it was; a failure after the truncating open leaves it damaged.
     */
    method Save(written: Write) returns (r: Outcome<StoreError>)
      modifies this
      ensures r == WriteOutcome(written) && file == old(file)
      ensures saved == Rewrite(old(saved), written, file)
    {
      saved := Rewrite(saved, written, file);
      return WriteOutcome(written);
    }

    /**
     * `Reload`: a missing file is created with the current document; an
     * unreadable one is an error; otherwise the stored maps are decoded into
     * the current ones.
     */
    method Reload(stored: Stored, written: Write) returns (r: Outcome<StoreError>)
      modifies this
      ensures stored.Missing? ==> r == WriteOutcome(written) && file == old(file) && saved == Rewrite(old(saved), written, file)
      ensures stored.Unreadable? ==> r == Fail(StoreError(stored.code)) && file == old(file) && saved == old(saved)
      ensures stored.Found? ==>
        && r == Pass && saved == old(saved)
        && file == PermissionFile(DecodeInto(old(file).users, stored.doc.users), DecodeInto(old(file).groups, stored.doc.groups))
    {
      match stored {
        case Missing =>
          r := Save(written);
          return;
        case Unreadable(code) =>
          return Fail(StoreError(code));
        case Found(doc) =>
          file := PermissionFile(DecodeInto(file.users, doc.users), DecodeInto(file.groups, doc.groups));
      }
      return Pass;
    }

    /** `UserAddPermission`: append to the normalised user's entries, then rewrite the file. */
    method UserAddPermission(id: string, permission: string, written: Write) returns (r: Outcome<StoreError>)
      modifies this
      ensures r == WriteOutcome(written)
      ensures file == old(file).(users := UserAdd(old(file).users, normalize(id), permission))
      ensures saved == Rewrite(old(saved), written, file)
    {
      file := file.(users := UserAdd(file.users, normalize(id), permission));
      r := Save(written);
    }

    /** `GroupAddPermission`: append to the group's entries (name used verbatim), then rewrite the file. */
    method GroupAddPermission(group: string, permission: string, written: Write) returns (r: Outcome<StoreError>)
      modifies this
      ensures r == WriteOutcome(written)
      ensures file == old(file).(groups := GroupAdd(old(file).groups, group, permission))
      ensures saved == Rewrite(old(saved), written, file)
    {
      file := file.(groups := GroupAdd(file.groups, group, permission));
      r := Save(written);
    }

    /** `UserRemovePermission`: delete every occurrence from the normalised user's entries, then rewrite the file. */
    method UserRemovePermission(id: string, permission: string, written: Write) returns (r: Outcome<StoreError>)
      modifies this
      ensures r == WriteOutcome(written)
      ensures file == old(file).(users := UserRemove(old(file).users, normalize(id), permission))
      ensures saved == Rewrite(old(saved), written, file)
    {
      file := file.(users := UserRemove(file.users, normalize(id), permission));
      r := Save(written);
    }

    /** `GroupRemovePermission`: delete every occurrence from the group's entries, then rewrite the file. */
    method GroupRemovePermission(group: string, permission: string, written: Write) returns (r: Outcome<StoreError>)
      modifies this
      ensures r == WriteOutcome(written)
      ensures file == old(file).(groups := GroupRemove(old(file).groups, group, permission))
      ensures saved == Rewrite(old(saved), written, file)
    {
      file := file.(groups := GroupRemove(file.groups, group, permission));
      r := Save(written);
    }
  }

  /**
   * `ReadFile`: a store with empty documents, then reloaded from the file;
   * a failed reload yields no store.
   */
  method ReadFile(name: string, norm: string -> string, stored: Stored, written: Write) returns (r: Result<FSPermissions, StoreError>)
    ensures stored.Unreadable? ==> r == Failure(StoreError(stored.code))
    ensures stored.Missing? && !written.Written? ==> r == Failure(WriteOutcome(written).error)
    ensures stored.Missing? && written.Written? ==> r.Success? && r.value.file == Empty && r.value.saved == Intact(Empty)
    ensures stored.Found? ==> r.Success? && r.value.file == stored.doc && r.value.name == name
    ensures r.Success? ==> fresh(r.value) && r.value.normalize == norm
  {
    var store := new FSPermissions(name, norm);
    var loaded := store.Reload(stored, written);
    if loaded.Fail? {
      return Failure(loaded.error);
    }
    if stored.Found? {
      assert DecodeInto(map[], stored.doc.users) == stored.doc.users;
      assert DecodeInto(map[], stored.doc.groups) == stored.doc.groups;
    }
    return Success(store);
  }

  /** A user whose only entry is `a.*` holds `a` and everything below it. */
  lemma SoleWildcardGrants(f: PermissionFile, norm: string -> string, player: string, a: string, rest: string)
    requires '.' !in a
    requires norm(player) in f.users && f.users[norm(player)] == PermissionUser([], [a + ".*"])
    ensures UserHasPermission(f, norm, player, a) == Decided(true)
    ensures UserHasPermission(f, norm, player, a + "." + rest) == Decided(true)
  {
    WildcardGrantsSubtree(a, rest);
    assert ListGrants([a + ".*"], a) == Decided(true);
    assert ListGrants([a + ".*"], a + "." + rest) == Decided(true);
  }

  /**
   * Granting a top-level wildcard to a fresh user through the store: the
   * user then holds every permission under that prefix, and the file holds
   * the grant.
   */
  method GrantWildcard(norm: string -> string, player: string) returns (direct: Check, nested: Check, persisted: bool)
    ensures direct == Decided(true) && nested == Decided(true)
    ensures persisted
  {
    var store := new FSPermissions("permissions.json", norm);
    var _ := store.UserAddPermission(player, "proxy.*", Written);
    assert store.file.users[norm(player)] == PermissionUser([], ["proxy.*"]);
    assert "proxy" + ".*" == "proxy.*";
    assert "proxy" + "." + "server.lobby" == "proxy.server.lobby";
    SoleWildcardGrants(store.file, norm, player, "proxy", "server.lobby");
    direct := UserHasPermission(store.file, norm, player, "proxy");
    nested := UserHasPermission(store.file, norm, player, "proxy.server.lobby");
    persisted := store.saved == Intact(store.file);
  }

  /** Removing a grant through the store takes it away again, even when it was added twice. */
  method RevokeDuplicate(norm: string -> string, player: string) returns (after: Check)
    ensures after == Decided(false)
  {
    var store := new FSPermissions("permissions.json", norm);
    var _ := store.UserAddPermission(player, "proxy.kick", Written);
    var _ := store.UserAddPermission(player, "proxy.kick", Written);
    var _ := store.UserRemovePermission(player, "proxy.kick", Written);
    assert store.file.users[norm(player)].permissions == [] by {
      assert store.file.users[norm(player)].permissions == RemoveAll(["proxy.kick", "proxy.kick"], "proxy.kick");
      assert RemoveAll(["proxy.kick"], "proxy.kick") == [];
    }
    after := UserHasPermission(store.file, norm, player, "proxy.kick");
  }
}
