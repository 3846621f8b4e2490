/**
 * The fallback plugin: when a player is kicked from a server, redirect them
 * to some lobby server.
 */
module Fallback {
  import opened Wrappers
  import opened KvTypes
  import opened Instances

  /** What the kick handler leaves behind. */
  datatype KickOutcome =
    | ConnectionRequested(target: Option<Server>)   // a connection request to `lobby-0` is created; the kick result is not set
    | NoResult                                      // no lobby server: the kick result is not set
    | Redirect(server: Server)                      // the kick result redirects the player to `server`

  class FallbackPlugin {
    const registry: Registry

    constructor (r: Registry)
      ensures registry == r
    {
      registry := r;
    }

    /**
     * `onServerDisconnect`: a lookup error creates a connection request for
     * whatever is registered as `lobby-0`; an empty lobby list leaves the kick
     * result unset; otherwise the player is redirected to some lobby server
     * (the random choice is left open).
     */
    method OnServerDisconnect(list: Result<seq<string>, BrokerError>, get: string -> Result<Bytes, BrokerError>,
                              decode: Bytes -> Option<InstanceInfo>) returns (o: KickOutcome)
      ensures list.Failure? ==> o == ConnectionRequested(registry.Lookup("lobby-0"))
      ensures list.Success? ==>
        var all := Filter(list.value, get, decode, registry.servers, "lobby");
        && (all.Failure? ==> o == ConnectionRequested(registry.Lookup("lobby-0")))
        && (all.Success? && all.value == [] ==> o == NoResult)
        && (all.Success? && all.value != [] ==> o.Redirect? && o.server in all.value)
      ensures o.Redirect? ==> o.server.name in registry.servers && registry.servers[o.server.name] == o.server.addr
    {
      var servers := ServersOfGamemode(list, get, decode, registry, "lobby");
      if servers.Failure? {
        return ConnectionRequested(registry.Lookup("lobby-0"));
      }
      if |servers.value| == 0 {
        return NoResult;
      }
      var i :| 0 <= i < |servers.value|;
      FilterSound(list.value, get, decode, registry.servers, "lobby");
      return Redirect(servers.value[i]);
    }
  }
}
