/**
 * The permission rules shared by the file-backed and key-value-backed
 * permission stores: the document shape, dotted permission names with a
 * top-level `prefix.*` wildcard, one level of user-to-group inheritance,
 * and the add/remove updates on the user and group maps.
 */
module Permissions {
  import opened Wrappers
  import opened Collections

  /** An unsigned 8-bit integer. */
  newtype uint8 = x: int | 0 <= x < 256

  datatype PermissionUser = PermissionUser(groups: seq<string>, permissions: seq<string>)

  datatype PermissionGroup = PermissionGroup(prefix: string, weight: uint8, permissions: seq<string>)

  datatype PermissionFile = PermissionFile(users: map<string, PermissionUser>, groups: map<string, PermissionGroup>)

  /** The zero values a Go map lookup yields for an absent user or group. */
  const NoUser := PermissionUser([], [])
  const NoGroup := PermissionGroup("", 0, [])

  // ---------------------------------------------------------------------
  // Dotted names
  // ---------------------------------------------------------------------

  /** Position of the first `.` in `s`. */
  function FirstDot(s: string): (r: Option<nat>)
    ensures r.Some? ==> r.value < |s| && s[r.value] == '.' && '.' !in s[..r.value]
    ensures r.None? <==> '.' !in s
  {
    if s == [] then None
    else if s[0] == '.' then Some(0)
    else match FirstDot(s[1..])
      case None => None
      case Some(i) => assert s[..i + 1] == [s[0]] + s[1..][..i]; Some(i + 1)
  }

  /** `strings.Split(s, ".")`: the segments between dots; never empty. */
  function Split(s: string): (parts: seq<string>)
    ensures |parts| >= 1
    ensures forall i | 0 <= i < |parts| :: '.' !in parts[i]
    ensures |parts| == 1 <==> '.' !in s
    ensures '.' !in s ==> parts == [s]
    decreases |s|
  {
    match FirstDot(s)
    case None => [s]
    case Some(i) => [s[..i]] + Split(s[i + 1..])
  }

  /** `strings.Join(parts, ".")`. */
  function Join(parts: seq<string>): string
    requires |parts| >= 1
  {
    if |parts| == 1 then parts[0] else parts[0] + "." + Join(parts[1..])
  }

  /** Splitting loses nothing: joining the segments gives back the name. */
  lemma {:induction false} JoinSplit(s: string)
    ensures Join(Split(s)) == s
    decreases |s|
  {
    match FirstDot(s)
    case None =>
    case Some(i) =>
      var rest := s[i + 1..];
      Around(s, i);
      JoinSplit(rest);
      assert Split(s) == [s[..i]] + Split(rest);
      JoinCons(s[..i], Split(rest));
  }

  /** A string is what comes before position `i`, the character at `i`, and what follows. */
  lemma Around(s: string, i: nat)
    requires i < |s|
    ensures s == s[..i] + [s[i]] + s[i + 1..]
  {
  }

  /** Joining a head segment in front of further segments puts one dot between them. */
  lemma JoinCons(head: string, tail: seq<string>)
    requires |tail| >= 1
    ensures Join([head] + tail) == head + "." + Join(tail)
  {
    assert ([head] + tail)[1..] == tail;
  }

  /** Joining dot-free segments and splitting again gives back the segments. */
  lemma {:induction false} SplitJoin(parts: seq<string>)
    requires |parts| >= 1
    requires forall i | 0 <= i < |parts| :: '.' !in parts[i]
    ensures Split(Join(parts)) == parts
  {
    if |parts| > 1 {
      SplitJoin(parts[1..]);
      var s := Join(parts);
      var head := parts[0];
      assert s == head + "." + Join(parts[1..]);
      assert s[..|head|] == head;
      assert s[|head|] == '.';
      assert FirstDot(s) == Some(|head|) by {
        FirstDotAfter(head, Join(parts[1..]));
      }
      assert s[|head| + 1..] == Join(parts[1..]);
    }
  }

  /** The first dot of `a.rest`, when `a` has none, is right after `a`. */
  lemma {:induction false} FirstDotAfter(a: string, rest: string)
    requires '.' !in a
    ensures FirstDot(a + "." + rest) == Some(|a|)
    decreases |a|
  {
    if a != [] {
      assert (a + "." + rest)[1..] == a[1..] + "." + rest;
      FirstDotAfter(a[1..], rest);
    }
  }

  /** The first segment of `a.rest`, when `a` has no dot, is `a`. */
  lemma {:induction false} SplitHead(a: string, rest: string)
    requires '.' !in a
    ensures Split(a + "." + rest)[0] == a
  {
    FirstDotAfter(a, rest);
    assert (a + "." + rest)[..|a|] == a;
  }

  // ---------------------------------------------------------------------
  // Matching
  // ---------------------------------------------------------------------

  /** Outcome of a permission check: a verdict, or the index-out-of-range panic of the wildcard test. */
  datatype Check = Decided(granted: bool) | IndexPanic

  /**
   * Whether the granted entry `g` covers the requested permission `p`: equal
   * names, or the same first segment with `*` as `g`'s second segment. The
   * second segment of `g` is read only when the first segments agree, and
   * reading it panics when `g` has no dot.
   */
  function Grants(g: string, p: string): (r: Check)
    ensures g == p ==> r == Decided(true)
    ensures r == IndexPanic <==> g != p && '.' !in g && Split(p)[0] == g
    ensures r == Decided(true) <==> g == p || (|Split(g)| >= 2 && Split(g)[0] == Split(p)[0] && Split(g)[1] == "*")
  {
    if g == p then Decided(true)
    else if Split(g)[0] == Split(p)[0] then
      (if |Split(g)| < 2 then IndexPanic else Decided(Split(g)[1] == "*"))
    else Decided(false)
  }

  /** `a.*` grants `a` itself and everything below it, at any depth. */
  lemma {:induction false} WildcardGrantsSubtree(a: string, rest: string)
    requires '.' !in a
    ensures Grants(a + ".*", a) == Decided(true)
    ensures Grants(a + ".*", a + "." + rest) == Decided(true)
  {
    SplitJoin([a, "*"]);
    assert Join([a, "*"]) == a + ".*";
    SplitHead(a, rest);
  }

  /** `a.b.*` (with `b` not itself `*`) is no wildcard: it grants only itself. */
  lemma {:induction false} DeepWildcardGrantsOnlyItself(a: string, b: string, p: string)
    requires '.' !in a && '.' !in b && b != "*"
    ensures Grants(a + "." + b + ".*", p) == Decided(true) <==> p == a + "." + b + ".*"
  {
    SplitJoin([a, b, "*"]);
    assert Join([a, b, "*"]) == a + "." + b + ".*";
  }

  /**
   * A list of granted entries checked in order, stopping at the first entry
   * that grants or panics.
   */
  function ListGrants(entries: seq<string>, p: string): (r: Check)
    ensures r == Decided(false) <==> forall i | 0 <= i < |entries| :: Grants(entries[i], p) == Decided(false)
    ensures r == Decided(true) ==> exists i | 0 <= i < |entries| :: Grants(entries[i], p) == Decided(true)
    ensures r == IndexPanic ==> exists i | 0 <= i < |entries| :: Grants(entries[i], p) == IndexPanic
  {
    if entries == [] then Decided(false)
    else match Grants(entries[0], p)
      case IndexPanic => IndexPanic
      case Decided(true) => Decided(true)
      case Decided(false) =>
        var rest := ListGrants(entries[1..], p);
        assert forall i | 1 <= i < |entries| :: entries[i] == entries[1..][i - 1];
        rest
  }

  /** Entries that neither grant nor panic can be dropped from the front without changing the verdict. */
  lemma {:induction false} ListGrantsAppend(a: seq<string>, b: seq<string>, p: string)
    requires forall i | 0 <= i < |a| :: Grants(a[i], p) == Decided(false)
    ensures ListGrants(a + b, p) == ListGrants(b, p)
  {
    if a == [] {
      assert a + b == b;
    } else {
      assert (a + b)[0] == a[0];
      assert (a + b)[1..] == a[1..] + b;
      assert forall i | 0 <= i < |a[1..]| :: a[1..][i] == a[i + 1];
      ListGrantsAppend(a[1..], b, p);
    }
  }

  // ---------------------------------------------------------------------
  // Lookups
  // ---------------------------------------------------------------------

  /** `GroupPermissions`: the stored list and `true` for a known group, an empty list and `false` otherwise. */
  function GroupPermissions(f: PermissionFile, name: string): (r: (seq<string>, bool))
    ensures r.1 <==> name in f.groups
    ensures r.0 == (if name in f.groups then f.groups[name].permissions else [])
  {
    if name in f.groups then (f.groups[name].permissions, true) else ([], false)
  }

  /** `UserPermissions`: the stored list and `true` for a known user, an empty list and `false` otherwise. */
  function UserPermissions(f: PermissionFile, name: string): (r: (seq<string>, bool))
    ensures r.1 <==> name in f.users
    ensures r.0 == (if name in f.users then f.users[name].permissions else [])
  {
    if name in f.users then (f.users[name].permissions, true) else ([], false)
  }

  /** `UserGroups`: the user's groups and `true` for a known user, an empty list and `false` otherwise. */
  function UserGroups(f: PermissionFile, name: string): (r: (seq<string>, bool))
    ensures r.1 <==> name in f.users
    ensures r.0 == (if name in f.users then f.users[name].groups else [])
  {
    if name in f.users then (f.users[name].groups, true) else ([], false)
  }

  /** `GetGroup`: the stored group, or the zero group and `false`. */
  function GetGroup(f: PermissionFile, name: string): (r: (PermissionGroup, bool))
    ensures r.1 <==> name in f.groups
    ensures r.0 == (if name in f.groups then f.groups[name] else NoGroup)
  {
    if name in f.groups then (f.groups[name], true) else (NoGroup, false)
  }

  /** `GetGroups` / `GroupNames`: every group name exactly once. */
  method GetGroups(f: PermissionFile) returns (names: seq<string>)
    ensures forall n :: n in names <==> n in f.groups
    ensures Distinct(names) && |names| == |f.groups|
  {
    names := MapKeys(f.groups);
  }

  /** `GetUsers`: every user id exactly once. */
  method GetUsers(f: PermissionFile) returns (ids: seq<string>)
    ensures forall n :: n in ids <==> n in f.users
    ensures Distinct(ids) && |ids| == |f.users|
  {
    ids := MapKeys(f.users);
  }

  // ---------------------------------------------------------------------
  // Permission checks
  // ---------------------------------------------------------------------

  /** `GroupHasPermission`: false for an unknown group, otherwise the verdict of its entries. */
  function GroupHasPermission(f: PermissionFile, name: string, p: string): (r: Check)
    ensures name !in f.groups ==> r == Decided(false)
    ensures name in f.groups ==> r == ListGrants(f.groups[name].permissions, p)
  {
    if name !in f.groups then Decided(false) else ListGrants(f.groups[name].permissions, p)
  }

  /** The user's groups checked in order, stopping at the first that grants or panics. */
  function GroupsGrant(f: PermissionFile, names: seq<string>, p: string): (r: Check)
    ensures r == Decided(false) <==> forall i | 0 <= i < |names| :: GroupHasPermission(f, names[i], p) == Decided(false)
    ensures r == Decided(true) ==> exists i | 0 <= i < |names| :: names[i] in f.groups && GroupHasPermission(f, names[i], p) == Decided(true)
  {
    if names == [] then Decided(false)
    else match GroupHasPermission(f, names[0], p)
      case IndexPanic => IndexPanic
      case Decided(true) => Decided(true)
      case Decided(false) =>
        var rest := GroupsGrant(f, names[1..], p);
        assert forall i | 1 <= i < |names| :: names[i] == names[1..][i - 1];
        rest
  }

  /**
   * `UserHasPermission`: the id is normalised; an unknown user has nothing;
   * otherwise the user's own entries are checked, then each of the user's
   * groups' entries (one level: groups do not include groups).
   */
  function UserHasPermission(f: PermissionFile, normalize: string -> string, player: string, p: string): (r: Check)
    ensures normalize(player) !in f.users ==> r == Decided(false)
    ensures normalize(player) in f.users ==>
      var u := f.users[normalize(player)];
      && (r == Decided(true) ==>
            (exists i | 0 <= i < |u.permissions| :: Grants(u.permissions[i], p) == Decided(true))
            || (exists j | 0 <= j < |u.groups| :: u.groups[j] in f.groups && GroupHasPermission(f, u.groups[j], p) == Decided(true)))
      && (r == Decided(false) <==>
            (forall i | 0 <= i < |u.permissions| :: Grants(u.permissions[i], p) == Decided(false))
            && (forall j | 0 <= j < |u.groups| :: GroupHasPermission(f, u.groups[j], p) == Decided(false)))
  {
    var id := normalize(player);
    if id !in f.users then Decided(false)
    else
      var u := f.users[id];
      var direct := ListGrants(u.permissions, p);
      if direct != Decided(false) then direct else GroupsGrant(f, u.groups, p)
  }

  /** A user holding a group that grants `p` has `p`, as long as the user's own entries neither grant nor panic. */
  lemma {:induction false} GroupGrantInherited(f: PermissionFile, normalize: string -> string, player: string, p: string, j: nat)
    requires normalize(player) in f.users
    requires j < |f.users[normalize(player)].groups|
    requires GroupHasPermission(f, f.users[normalize(player)].groups[j], p) == Decided(true)
    requires forall i | 0 <= i < |f.users[normalize(player)].permissions| ::
      Grants(f.users[normalize(player)].permissions[i], p) == Decided(false)
    requires forall i | 0 <= i < j :: GroupHasPermission(f, f.users[normalize(player)].groups[i], p) == Decided(false)
    ensures UserHasPermission(f, normalize, player, p) == Decided(true)
  {
    var gs := f.users[normalize(player)].groups;
    assert gs == gs[..j] + gs[j..];
    GroupsGrantPrefix(f, gs, j, p);
  }

  /** Groups that grant nothing before index `j` do not change the verdict of the group at `j`. */
  lemma {:induction false} GroupsGrantPrefix(f: PermissionFile, names: seq<string>, j: nat, p: string)
    requires j < |names|
    requires forall i | 0 <= i < j :: GroupHasPermission(f, names[i], p) == Decided(false)
    requires GroupHasPermission(f, names[j], p) == Decided(true)
    ensures GroupsGrant(f, names, p) == Decided(true)
  {
    if j > 0 {
      GroupsGrantPrefix(f, names[1..], j - 1, p);
    }
  }

  // ---------------------------------------------------------------------
  // Updates of the user and group maps
  // ---------------------------------------------------------------------

  /** Append `p` to user `id`'s entries, creating the user when absent; nothing else changes. */
  function UserAdd(users: map<string, PermissionUser>, id: string, p: string): (r: map<string, PermissionUser>)
    ensures r.Keys == users.Keys + {id}
    ensures forall k | k in users && k != id :: r[k] == users[k]
    ensures r[id].permissions == (if id in users then users[id].permissions else []) + [p]
    ensures r[id].groups == (if id in users then users[id].groups else [])
  {
    var u := if id in users then users[id] else NoUser;
    users[id := u.(permissions := u.permissions + [p])]
  }

  /** Delete every occurrence of `p` from user `id`'s entries, creating an empty user when absent. */
  function UserRemove(users: map<string, PermissionUser>, id: string, p: string): (r: map<string, PermissionUser>)
    ensures r.Keys == users.Keys + {id}
    ensures forall k | k in users && k != id :: r[k] == users[k]
    ensures p !in r[id].permissions
    ensures r[id].permissions == RemoveAll(if id in users then users[id].permissions else [], p)
    ensures r[id].groups == (if id in users then users[id].groups else [])
  {
    var u := if id in users then users[id] else NoUser;
    users[id := u.(permissions := RemoveAll(u.permissions, p))]
  }

  /** Append `p` to group `name`'s entries, creating the group when absent; nothing else changes. */
  function GroupAdd(groups: map<string, PermissionGroup>, name: string, p: string): (r: map<string, PermissionGroup>)
    ensures r.Keys == groups.Keys + {name}
    ensures forall k | k in groups && k != name :: r[k] == groups[k]
    ensures r[name].permissions == (if name in groups then groups[name].permissions else []) + [p]
    ensures r[name].prefix == (if name in groups then groups[name].prefix else "")
    ensures r[name].weight == (if name in groups then groups[name].weight else 0)
  {
    var g := if name in groups then groups[name] else NoGroup;
    groups[name := g.(permissions := g.permissions + [p])]
  }

  /** Delete every occurrence of `p` from group `name`'s entries, creating an empty group when absent. */
  function GroupRemove(groups: map<string, PermissionGroup>, name: string, p: string): (r: map<string, PermissionGroup>)
    ensures r.Keys == groups.Keys + {name}
    ensures forall k | k in groups && k != name :: r[k] == groups[k]
    ensures p !in r[name].permissions
    ensures r[name].permissions == RemoveAll(if name in groups then groups[name].permissions else [], p)
    ensures r[name].prefix == (if name in groups then groups[name].prefix else "")
    ensures r[name].weight == (if name in groups then groups[name].weight else 0)
  {
    var g := if name in groups then groups[name] else NoGroup;
    groups[name := g.(permissions := RemoveAll(g.permissions, p))]
  }

  /**
   * Decoding a JSON object into a map that already has entries: the decoded
   * entries are added, replacing those with the same key, and every other
   * entry survives.
   */
  function DecodeInto<V>(current: map<string, V>, decoded: map<string, V>): (r: map<string, V>)
    ensures r.Keys == current.Keys + decoded.Keys
    ensures forall k | k in decoded :: r[k] == decoded[k]
    ensures forall k | k in current && k !in decoded :: r[k] == current[k]
  {
    current + decoded
  }

  /** Adding then removing a permission leaves the user's entries as removal alone would. */
  lemma {:induction false} UserAddThenRemove(users: map<string, PermissionUser>, id: string, p: string)
    ensures UserRemove(UserAdd(users, id, p), id, p) == UserRemove(users, id, p)
  {
    var u := if id in users then users[id] else NoUser;
    var added := u.(permissions := u.permissions + [p]);
    RemoveAllAppend(u.permissions, [p], p);
    assert RemoveAll([p], p) == [];
    assert RemoveAll(added.permissions, p) == RemoveAll(u.permissions, p);
    assert UserAdd(users, id, p) == users[id := added];
    assert UserRemove(users[id := added], id, p) == users[id := added][id := added.(permissions := RemoveAll(added.permissions, p))];
  }

  /** After adding `p` to a user, a check of `p` for that user is granted (an exact entry matches). */
  lemma {:induction false} UserAddGrants(f: PermissionFile, normalize: string -> string, player: string, p: string)
    requires forall i | 0 <= i < |UserPermissions(f, normalize(player)).0| :: Grants(UserPermissions(f, normalize(player)).0[i], p) == Decided(false)
    ensures UserHasPermission(f.(users := UserAdd(f.users, normalize(player), p)), normalize, player, p) == Decided(true)
  {
    var before := UserPermissions(f, normalize(player)).0;
    ListGrantsAppend(before, [p], p);
  }
}
