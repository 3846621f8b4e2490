/**
 * Game-server instances: the descriptor each instance publishes in the
 * instances bucket, the proxy's registry of servers, and the instance
 * manager that keeps the two in step and answers "which servers run this
 * game mode".
 *
 * The proxy registry, address resolution and JSON decoding are outside the
 * model: the registry is a map from server name to address, resolution is
 * an `Option<Addr>` handed in, and decoding is a partial function parameter.
 */
module Instances {
  import opened Wrappers
  import opened KvTypes

  /** What an instance publishes about itself. */
  datatype InstanceInfo = InstanceInfo(gamemode: string, address: string, port: int)

  /** A resolved TCP address. */
  datatype Addr = Addr(host: string, port: int)

  /** A registered server: its name and address. */
  datatype Server = Server(name: string, addr: Addr)

  /** Why registering a server failed. */
  datatype RegistryError =
    | Unresolvable    // the instance's address did not resolve
    | Rejected        // the proxy refused the registration

  /** The proxy's server registry. */
  class Registry {
    var servers: map<string, Addr>

    constructor ()
      ensures servers == map[]
    {
      servers := map[];
    }

    /** The registered server of that name, if any. */
    function Lookup(name: string): (r: Option<Server>)
      reads this
      ensures r.Some? <==> name in servers
      ensures r.Some? ==> r.value == Server(name, servers[name])
    {
      if name in servers then Some(Server(name, servers[name])) else None
    }

    /** Unregisters a server; the answer says whether one was registered. */
    method Remove(name: string) returns (removed: bool)
      modifies this
      ensures removed <==> name in old(servers)
      ensures servers == old(servers) - {name}
    {
      removed := name in servers;
      servers := servers - {name};
    }

    /**
     * Register-by-name, shared by the instance manager and the core plugin:
     * an unresolvable address changes nothing; otherwise any server of that
     * name is unregistered first and the new address is registered, which
     * the proxy may refuse (`admitted` false), leaving the name absent.
     */
    method Upsert(name: string, resolved: Option<Addr>, admitted: bool) returns (r: Outcome<RegistryError>)
      modifies this
      ensures resolved.None? ==> r == Fail(Unresolvable) && servers == old(servers)
      ensures resolved.Some? && admitted ==> r == Pass && servers == old(servers)[name := resolved.value]
      ensures resolved.Some? && !admitted ==> r == Fail(Rejected) && servers == old(servers) - {name}
    {
      if resolved.None? {
        return Fail(Unresolvable);
      }
      var _ := Remove(name);
      if !admitted {
        return Fail(Rejected);
      }
      servers := servers[name := resolved.value];
      return Pass;
    }
  }

  // ---------------------------------------------------------------------
  // Servers of a game mode
  // ---------------------------------------------------------------------

  /**
   * A key of the instances bucket names a server of `gamemode`: its record
   * reads and decodes, the decoded game mode matches, and the server is
   * registered.
   */
  predicate Qualifies<E>(k: string, get: string -> Result<Bytes, E>, decode: Bytes -> Option<InstanceInfo>,
                         registry: map<string, Addr>, gamemode: string)
  {
    && get(k).Success?
    && decode(get(k).value).Some?
    && decode(get(k).value).value.gamemode == gamemode
    && k in registry
  }

  /**
   * The filter the lookup loop computes over the listed keys, in list order:
   * the first read error aborts; an undecodable record, another game mode or
   * an unregistered name is skipped.
   */
  function Filter<E>(keys: seq<string>, get: string -> Result<Bytes, E>, decode: Bytes -> Option<InstanceInfo>,
                     registry: map<string, Addr>, gamemode: string): Result<seq<Server>, E>
    decreases |keys|
  {
    if keys == [] then Success([])
    else
      var prev := Filter(keys[..|keys| - 1], get, decode, registry, gamemode);
      var k := keys[|keys| - 1];
      if prev.Failure? then prev
      else if get(k).Failure? then Failure(get(k).error)
      else if Qualifies(k, get, decode, registry, gamemode) then Success(prev.value + [Server(k, registry[k])])
      else prev
  }

  /** Once a prefix of the keys has failed, the whole list fails with the same error. */
  lemma {:induction false} FilterPrefixFailure<E>(keys: seq<string>, n: nat, get: string -> Result<Bytes, E>,
                                                   decode: Bytes -> Option<InstanceInfo>, registry: map<string, Addr>, gamemode: string)
    requires n <= |keys|
    requires Filter(keys[..n], get, decode, registry, gamemode).Failure?
    ensures Filter(keys, get, decode, registry, gamemode) == Filter(keys[..n], get, decode, registry, gamemode)
    decreases |keys|
  {
    if n == |keys| {
      assert keys[..n] == keys;
    } else {
      var init := keys[..|keys| - 1];
      assert init[..n] == keys[..n];
      FilterPrefixFailure(init, n, get, decode, registry, gamemode);
    }
  }

  /** Every server returned was listed, qualifies, and carries its registered address. */
  lemma {:induction false} FilterSound<E>(keys: seq<string>, get: string -> Result<Bytes, E>, decode: Bytes -> Option<InstanceInfo>,
                                          registry: map<string, Addr>, gamemode: string)
    requires Filter(keys, get, decode, registry, gamemode).Success?
    ensures var r := Filter(keys, get, decode, registry, gamemode).value;
      forall i | 0 <= i < |r| ::
        && r[i].name in keys
        && Qualifies(r[i].name, get, decode, registry, gamemode)
        && r[i].addr == registry[r[i].name]
    decreases |keys|
  {
    if keys != [] {
      var init := keys[..|keys| - 1];
      FilterSound(init, get, decode, registry, gamemode);
      var r := Filter(keys, get, decode, registry, gamemode).value;
      forall i | 0 <= i < |r|
        ensures r[i].name in keys
      {
        if i < |Filter(init, get, decode, registry, gamemode).value| {
          assert r[i].name in init;
        }
      }
    }
  }

  /** Every listed key that qualifies is returned. */
  lemma {:induction false} FilterComplete<E>(keys: seq<string>, get: string -> Result<Bytes, E>, decode: Bytes -> Option<InstanceInfo>,
                                             registry: map<string, Addr>, gamemode: string, k: string)
    requires Filter(keys, get, decode, registry, gamemode).Success?
    requires k in keys && Qualifies(k, get, decode, registry, gamemode)
    ensures Server(k, registry[k]) in Filter(keys, get, decode, registry, gamemode).value
    decreases |keys|
  {
    var init := keys[..|keys| - 1];
    if k != keys[|keys| - 1] {
      assert k in init by {
        var i :| 0 <= i < |keys| && keys[i] == k;
        assert init[i] == k;
      }
      FilterComplete(init, get, decode, registry, gamemode, k);
    }
  }

  /** The lookup fails exactly when some listed key's record cannot be read, and then with the first such error. */
  lemma {:induction false} FilterFailure<E>(keys: seq<string>, get: string -> Result<Bytes, E>, decode: Bytes -> Option<InstanceInfo>,
                                            registry: map<string, Addr>, gamemode: string)
    ensures Filter(keys, get, decode, registry, gamemode).Failure? <==> exists i | 0 <= i < |keys| :: get(keys[i]).Failure?
    ensures Filter(keys, get, decode, registry, gamemode).Failure? ==>
      exists i | 0 <= i < |keys| ::
        && get(keys[i]) == Failure(Filter(keys, get, decode, registry, gamemode).error)
        && forall j | 0 <= j < i :: get(keys[j]).Success?
    decreases |keys|
  {
    if keys != [] {
      var init := keys[..|keys| - 1];
      FilterFailure(init, get, decode, registry, gamemode);
      if exists i | 0 <= i < |init| :: get(init[i]).Failure? {
        var i :| 0 <= i < |init| && get(init[i]).Failure?;
        assert keys[i] == init[i];
      }
      if Filter(init, get, decode, registry, gamemode).Failure? {
        var i :| 0 <= i < |init| && get(init[i]) == Failure(Filter(init, get, decode, registry, gamemode).error)
                 && forall j | 0 <= j < i :: get(init[j]).Success?;
        assert keys[i] == init[i];
        assert forall j | 0 <= j < i :: keys[j] == init[j];
      } else {
        assert forall j | 0 <= j < |init| :: keys[j] == init[j];
        if exists i | 0 <= i < |keys| :: get(keys[i]).Failure? {
          var i :| 0 <= i < |keys| && get(keys[i]).Failure?;
          assert i == |init|;
        }
      }
    }
  }

  /**
   * The lookup loop: list the keys, read each in turn, keep the registered
   * servers of `gamemode`. Shared by the instance manager and the two plugins,
   * which each carry a copy of it.
   */
  method ServersOfGamemode<E>(list: Result<seq<string>, E>, get: string -> Result<Bytes, E>, decode: Bytes -> Option<InstanceInfo>,
                              registry: Registry, gamemode: string) returns (r: Result<seq<Server>, E>)
    ensures list.Failure? ==> r == Failure(list.error)
    ensures list.Success? ==> r == Filter(list.value, get, decode, registry.servers, gamemode)
  {
    if list.Failure? {
      return Failure(list.error);
    }
    var keys := list.value;
    var servers: seq<Server> := [];
    var i := 0;
    while i < |keys|
      invariant 0 <= i <= |keys|
      invariant Filter(keys[..i], get, decode, registry.servers, gamemode) == Success(servers)
    {
      var key := keys[i];
      assert keys[..i + 1][..i] == keys[..i];
      var v := get(key);
      if v.Failure? {
        FilterPrefixFailure(keys, i + 1, get, decode, registry.servers, gamemode);
        return Failure(v.error);
      }
      var info := decode(v.value);
      if info.Some? && info.value.gamemode == gamemode && key in registry.servers {
        servers := servers + [Server(key, registry.servers[key])];
      }
      i := i + 1;
    }
    assert keys[..i] == keys;
    return Success(servers);
  }

  // ---------------------------------------------------------------------
  // The instance manager
  // ---------------------------------------------------------------------

  /** Why a random pick failed. */
  datatype LookupError<E> =
    | Lookup(cause: E)        // listing or reading the instances bucket failed
    | NoServersAvailable      // no registered server runs the game mode

  class InstanceManager {
    const registry: Registry

    constructor (r: Registry)
      ensures registry == r
    {
      registry := r;
    }

    /** `Register`: resolve the instance's address, then register it under `name`, replacing any older entry. */
    method Register(name: string, info: InstanceInfo, resolved: Option<Addr>, admitted: bool) returns (r: Outcome<RegistryError>)
      modifies registry
      ensures resolved.None? ==> r == Fail(Unresolvable) && registry.servers == old(registry.servers)
      ensures resolved.Some? && admitted ==> r == Pass && registry.servers == old(registry.servers)[name := resolved.value]
      ensures resolved.Some? && !admitted ==> r == Fail(Rejected) && registry.servers == old(registry.servers) - {name}
    {
      r := registry.Upsert(name, resolved, admitted);
    }

    /** `Unregister`: the name is gone afterwards, whether or not it was registered; never an error. */
    method Unregister(name: string) returns (r: Outcome<RegistryError>)
      modifies registry
      ensures r == Pass
      ensures registry.servers == old(registry.servers) - {name}
    {
      var _ := registry.Remove(name);
      return Pass;
    }

    /** `GetServersOfGamemode`, over the instances bucket's key listing and reads. */
    method GetServersOfGamemode(list: Result<seq<string>, KvError>, get: string -> Result<Bytes, KvError>,
                                decode: Bytes -> Option<InstanceInfo>, gamemode: string) returns (r: Result<seq<Server>, KvError>)
      ensures list.Failure? ==> r == Failure(list.error)
      ensures list.Success? ==> r == Filter(list.value, get, decode, registry.servers, gamemode)
    {
      r := ServersOfGamemode(list, get, decode, registry, gamemode);
    }

    /**
     * `GetRandomServerOfGamemode`: a lookup error is returned; an empty result
     * is `NoServersAvailable`; otherwise some server of the result (the
     * random choice is left open).
     */
    method GetRandomServerOfGamemode(list: Result<seq<string>, KvError>, get: string -> Result<Bytes, KvError>,
                                     decode: Bytes -> Option<InstanceInfo>, gamemode: string)
      returns (r: Result<Server, LookupError<KvError>>)
      ensures list.Failure? ==> r == Failure(Lookup(list.error))
      ensures list.Success? ==>
        var all := Filter(list.value, get, decode, registry.servers, gamemode);
        && (all.Failure? ==> r == Failure(Lookup(all.error)))
        && (all.Success? && all.value == [] ==> r == Failure(NoServersAvailable))
        && (all.Success? && all.value != [] ==> r.Success? && r.value in all.value)
    {
      var servers := GetServersOfGamemode(list, get, decode, gamemode);
      if servers.Failure? {
        return Failure(Lookup(servers.error));
      }
      if |servers.value| == 0 {
        return Failure(NoServersAvailable);
      }
      var i :| 0 <= i < |servers.value|;
      return Success(servers.value[i]);
    }
  }

  /** Re-registering a name moves it to the new address; unregistering it then removes it. */
  method ReRegister(name: string, first: Addr, second: Addr) returns (afterMove: Option<Server>, afterRemove: Option<Server>)
    ensures afterMove == Some(Server(name, second))
    ensures afterRemove == None
  {
    var registry := new Registry();
    var manager := new InstanceManager(registry);
    var _ := manager.Register(name, InstanceInfo("lobby", "10.0.0.1", 25565), Some(first), true);
    var _ := manager.Register(name, InstanceInfo("lobby", "10.0.0.2", 25565), Some(second), true);
    afterMove := registry.Lookup(name);
    var _ := manager.Unregister(name);
    afterRemove := registry.Lookup(name);
  }
}
