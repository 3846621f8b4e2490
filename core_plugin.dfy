/**
 * The core proxy plugin: it keeps the proxy's server registry in step with
 * the instances bucket, answers player-transfer requests arriving on the
 * network subject, and picks the initial server of a joining player.
 *
 * The broker, the proxy and JSON are outside the model: updates and lookup
 * replies are parameters, decoding is a partial function parameter, and the
 * player and connection queries of the proxy are function parameters.
 */
module Core {
  import opened Wrappers
  import opened KvTypes
  import opened Instances
  import opened Rpc
  import NatsKv

  // ---------------------------------------------------------------------
  // Registry synchronisation
  // ---------------------------------------------------------------------

  /** What stops the synchronisation loop (the process exits on it). */
  datatype Fatal =
    | WatchFailed(watchError: BrokerError)
    | RegistrationFailed(registryError: RegistryError)

  /** The registry after some updates, and the fatal error that stopped the loop, if any. */
  datatype Sync = Sync(servers: map<string, Addr>, fatal: Option<Fatal>)

  /**
   * One update: the broker's nil is ignored; a Put whose record decodes
   * registers the instance under the key (an unresolvable or refused
   * registration is fatal); a Put that does not decode is skipped; a Delete
   * unregisters the key; purges and unknown operations do nothing.
   */
  function Step(servers: map<string, Addr>, u: NatsKv.Update, decode: Bytes -> Option<InstanceInfo>,
                resolve: InstanceInfo -> Option<Addr>, admits: (string, Addr) -> bool): Sync
  {
    match u
    case None => Sync(servers, None)
    case Some(entry) =>
      match entry.op
      case OpPut =>
        (match decode(entry.value)
         case None => Sync(servers, None)
         case Some(info) =>
           match resolve(info)
           case None => Sync(servers, Some(RegistrationFailed(Unresolvable)))
           case Some(a) =>
             if admits(entry.key, a) then Sync(servers[entry.key := a], None)
             else Sync(servers - {entry.key}, Some(RegistrationFailed(Rejected))))
      case OpDelete => Sync(servers - {entry.key}, None)
      case OpPurge => Sync(servers, None)
      case OpOther(_) => Sync(servers, None)
  }

  /** The loop over a stream of updates, stopping at the first fatal step. */
  function Apply(servers: map<string, Addr>, us: seq<NatsKv.Update>, decode: Bytes -> Option<InstanceInfo>,
                 resolve: InstanceInfo -> Option<Addr>, admits: (string, Addr) -> bool): Sync
    decreases |us|
  {
    if us == [] then Sync(servers, None)
    else
      var prev := Apply(servers, us[..|us| - 1], decode, resolve, admits);
      if prev.fatal.Some? then prev
      else Step(prev.servers, us[|us| - 1], decode, resolve, admits)
  }

  /** Once the loop has stopped, later updates change nothing. */
  lemma {:induction false} ApplyStops(servers: map<string, Addr>, us: seq<NatsKv.Update>, n: nat, decode: Bytes -> Option<InstanceInfo>,
                                      resolve: InstanceInfo -> Option<Addr>, admits: (string, Addr) -> bool)
    requires n <= |us|
    requires Apply(servers, us[..n], decode, resolve, admits).fatal.Some?
    ensures Apply(servers, us, decode, resolve, admits) == Apply(servers, us[..n], decode, resolve, admits)
    decreases |us|
  {
    if n == |us| {
      assert us[..n] == us;
    } else {
      var init := us[..|us| - 1];
      assert init[..n] == us[..n];
      ApplyStops(servers, init, n, decode, resolve, admits);
    }
  }

  /** An update that carries no entry for `k`. */
  predicate Untouched(u: NatsKv.Update, k: string)
  {
    u.None? || u.value.key != k
  }

  /** Servers whose name no update mentions keep their registration, whatever happens to the others. */
  lemma {:induction false} ApplyFrame(servers: map<string, Addr>, us: seq<NatsKv.Update>, decode: Bytes -> Option<InstanceInfo>,
                                      resolve: InstanceInfo -> Option<Addr>, admits: (string, Addr) -> bool, k: string)
    requires forall i | 0 <= i < |us| :: Untouched(us[i], k)
    ensures var r := Apply(servers, us, decode, resolve, admits).servers;
      (k in r <==> k in servers) && (k in servers ==> r[k] == servers[k])
    decreases |us|
  {
    if us != [] {
      ApplyFrame(servers, us[..|us| - 1], decode, resolve, admits, k);
    }
  }

  /** After a Delete of `k` that the loop reaches, `k` is not registered. */
  lemma {:induction false} DeleteUnregisters(servers: map<string, Addr>, us: seq<NatsKv.Update>, k: string, v: Bytes,
                                             decode: Bytes -> Option<InstanceInfo>, resolve: InstanceInfo -> Option<Addr>, admits: (string, Addr) -> bool)
    requires Apply(servers, us, decode, resolve, admits).fatal.None?
    ensures var r := Apply(servers, us + [Some(NatsKv.BrokerEntry(k, v, NatsKv.OpDelete))], decode, resolve, admits);
      r.fatal.None? && k !in r.servers
  {
    var last := Some(NatsKv.BrokerEntry(k, v, NatsKv.OpDelete));
    assert (us + [last])[..|us + [last]| - 1] == us;
  }

  /** The broker's nil marker, reached by the loop, changes nothing. */
  lemma {:induction false} NilSkipped(servers: map<string, Addr>, us: seq<NatsKv.Update>,
                                      decode: Bytes -> Option<InstanceInfo>, resolve: InstanceInfo -> Option<Addr>, admits: (string, Addr) -> bool)
    requires Apply(servers, us, decode, resolve, admits).fatal.None?
    ensures Apply(servers, us + [None], decode, resolve, admits) == Apply(servers, us, decode, resolve, admits)
  {
    assert (us + [None])[..|us + [None]| - 1] == us;
  }

  /**
   * A Put of `k` that the loop reaches: an undecodable record is skipped; a
   * record whose address does not resolve is fatal and leaves the registry
   * alone; an address the proxy admits registers `k` under it; a refused one
   * is fatal and leaves `k` unregistered.
   */
  lemma {:induction false} PutRegisters(servers: map<string, Addr>, us: seq<NatsKv.Update>, k: string, v: Bytes,
                                        decode: Bytes -> Option<InstanceInfo>, resolve: InstanceInfo -> Option<Addr>, admits: (string, Addr) -> bool)
    requires Apply(servers, us, decode, resolve, admits).fatal.None?
    ensures var prev := Apply(servers, us, decode, resolve, admits);
      var r := Apply(servers, us + [Some(NatsKv.BrokerEntry(k, v, NatsKv.OpPut))], decode, resolve, admits);
      && (decode(v).None? ==> r == prev)
      && (decode(v).Some? && resolve(decode(v).value).None? ==>
            r.fatal == Some(RegistrationFailed(Unresolvable)) && r.servers == prev.servers)
      && (decode(v).Some? && resolve(decode(v).value).Some? && admits(k, resolve(decode(v).value).value) ==>
            r.fatal.None? && r.servers == prev.servers[k := resolve(decode(v).value).value])
      && (decode(v).Some? && resolve(decode(v).value).Some? && !admits(k, resolve(decode(v).value).value) ==>
            r.fatal == Some(RegistrationFailed(Rejected)) && k !in r.servers)
  {
    var last := Some(NatsKv.BrokerEntry(k, v, NatsKv.OpPut));
    assert (us + [last])[..|us + [last]| - 1] == us;
  }

  class CorePlugin {
    const registry: Registry

    constructor (r: Registry)
      ensures registry == r
    {
      registry := r;
    }

    /**
     * The watch loop: a failed watch is fatal at once; otherwise the updates
     * are applied to the registry in order until one is fatal.
     */
    method SyncRegistry(started: Outcome<BrokerError>, updates: seq<NatsKv.Update>, decode: Bytes -> Option<InstanceInfo>,
                        resolve: InstanceInfo -> Option<Addr>, admits: (string, Addr) -> bool) returns (fatal: Option<Fatal>)
      modifies registry
      ensures started.Fail? ==> fatal == Some(WatchFailed(started.error)) && registry.servers == old(registry.servers)
      ensures started.Pass? ==> Sync(registry.servers, fatal) == Apply(old(registry.servers), updates, decode, resolve, admits)
    {
      if started.Fail? {
        return Some(WatchFailed(started.error));
      }
      var i := 0;
      while i < |updates|
        invariant 0 <= i <= |updates|
        invariant Apply(old(registry.servers), updates[..i], decode, resolve, admits) == Sync(registry.servers, None)
      {
        assert updates[..i + 1][..i] == updates[..i];
        match updates[i] {
          case None =>
          case Some(entry) =>
            match entry.op {
              case OpPut =>
                var info := decode(entry.value);
                if info.Some? {
                  var resolved := resolve(info.value);
                  var r := registry.Upsert(entry.key, resolved, resolved.Some? && admits(entry.key, resolved.value));
                  if r.Fail? {
                    ApplyStops(old(registry.servers), updates, i + 1, decode, resolve, admits);
                    return Some(RegistrationFailed(r.error));
                  }
                }
              case OpDelete =>
                var _ := registry.Remove(entry.key);
              case OpPurge =>
              case OpOther(_) =>
            }
        }
        i := i + 1;
      }
      assert updates[..i] == updates;
      return None;
    }

    /**
     * `onChooseServer`: on a lookup error the initial server is whatever is
     * registered as `lobby-0` (possibly none); an empty lobby list panics in
     * the random pick; otherwise some lobby server is chosen.
     */
    method OnChooseServer(list: Result<seq<string>, BrokerError>, get: string -> Result<Bytes, BrokerError>,
                          decode: Bytes -> Option<InstanceInfo>) returns (c: Choice)
      ensures list.Failure? ==> c == Initial(registry.Lookup("lobby-0"))
      ensures list.Success? ==>
        var all := Filter(list.value, get, decode, registry.servers, "lobby");
        && (all.Failure? ==> c == Initial(registry.Lookup("lobby-0")))
        && (all.Success? && all.value == [] ==> c == Panics)
        && (all.Success? && all.value != [] ==> c.Initial? && c.server.Some? && c.server.value in all.value)
    {
      var servers := ServersOfGamemode(list, get, decode, registry, "lobby");
      if servers.Failure? {
        return Initial(registry.Lookup("lobby-0"));
      }
      if |servers.value| == 0 {
        return Panics;
      }
      var i :| 0 <= i < |servers.value|;
      return Initial(Some(servers.value[i]));
    }
  }

  /** The initial server chosen for a joining player, or the panic of a random pick from nothing. */
  datatype Choice = Initial(server: Option<Server>) | Panics

  // ---------------------------------------------------------------------
  // Player transfers
  // ---------------------------------------------------------------------

  /** A registry server serves `dest` when its name is `dest` or starts with `dest-`. */
  predicate Serves(name: string, dest: string)
  {
    name == dest || dest + "-" <= name
  }

  /** The first server from index `from` on that serves `dest`. */
  function FindFrom(servers: seq<Server>, dest: string, from: nat): (r: Option<nat>)
    requires from <= |servers|
    ensures r.Some? ==> from <= r.value < |servers| && Serves(servers[r.value].name, dest)
    ensures r.Some? ==> forall j | from <= j < r.value :: !Serves(servers[j].name, dest)
    ensures r.None? ==> forall j | from <= j < |servers| :: !Serves(servers[j].name, dest)
    decreases |servers| - from
  {
    if from == |servers| then None
    else if Serves(servers[from].name, dest) then Some(from)
    else FindFrom(servers, dest, from + 1)
  }

  /** Destination lookup: the index of the first server in registry order that serves `dest`, if any. */
  function FindDestination(servers: seq<Server>, dest: string): (r: Option<nat>)
    ensures r.Some? ==> r.value < |servers| && Serves(servers[r.value].name, dest)
    ensures r.Some? ==> forall j | 0 <= j < r.value :: !Serves(servers[j].name, dest)
    ensures r.None? <==> forall j | 0 <= j < |servers| :: !Serves(servers[j].name, dest)
  {
    FindFrom(servers, dest, 0)
  }

  /** How a connection attempt ended, when it did not fail outright. */
  datatype ConnectionStatus = Connected | AlreadyConnected | NotConnected(code: int)

  /** What the transfer handler does with one message. */
  datatype Decision =
    | Drop                       // nothing at all: no ack, no nak, no response
    | Nak
    | Ack
    | Respond(response: Response)

  /** The response sent when a transfer fails, computed once at start-up. */
  function ErrorResponse(encode: TransferPlayerResponse -> string): Response
  {
    Response(TypeTransferPlayer, encode(TransferPlayerResponse(StatusError)))
  }

  /** A transfer request was well formed, its player is online and its destination exists. */
  predicate Accepted(data: Bytes, decodeRequest: Bytes -> Option<Request>, decodeTransfer: string -> Option<TransferPlayerRequest>,
                     online: PlayerId -> bool, servers: seq<Server>)
  {
    && decodeRequest(data).Some?
    && decodeRequest(data).value.typ == TypeTransferPlayer
    && decodeTransfer(decodeRequest(data).value.data).Some?
    && online(decodeTransfer(decodeRequest(data).value.data).value.player)
    && FindDestination(servers, decodeTransfer(decodeRequest(data).value.data).value.destination).Some?
  }

  /**
   * The transfer handler's decision chain for a raw message `data`, given the
   * registry's server list, the online check, the connection attempt to the
   * chosen server (`None` when it errors) and the response encoder.
   */
  function Transfer(data: Bytes, decodeRequest: Bytes -> Option<Request>, decodeTransfer: string -> Option<TransferPlayerRequest>,
                    online: PlayerId -> bool, servers: seq<Server>, connect: Server -> Option<ConnectionStatus>,
                    encode: TransferPlayerResponse -> string): (d: Decision)
    ensures d == Drop <==> decodeRequest(data).None?
    ensures d == Nak <==> decodeRequest(data).Some? && !Accepted(data, decodeRequest, decodeTransfer, online, servers)
    ensures Accepted(data, decodeRequest, decodeTransfer, online, servers) ==>
      var target := servers[FindDestination(servers, decodeTransfer(decodeRequest(data).value.data).value.destination).value];
      && (connect(target) == Some(AlreadyConnected) <==> d == Ack)
      && (connect(target) == Some(Connected) ==> d == Respond(Response(decodeRequest(data).value.typ, encode(TransferPlayerResponse(StatusOk)))))
      && (connect(target).None? || connect(target).value.NotConnected? ==> d == Respond(ErrorResponse(encode)))
  {
    match decodeRequest(data)
    case None => Drop
    case Some(req) =>
      if req.typ != TypeTransferPlayer then Nak
      else match decodeTransfer(req.data)
        case None => Nak
        case Some(tr) =>
          if !online(tr.player) then Nak
          else match FindDestination(servers, tr.destination)
            case None => Nak
            case Some(i) =>
              match connect(servers[i])
              case None => Respond(ErrorResponse(encode))
              case Some(AlreadyConnected) => Ack
              case Some(NotConnected(_)) => Respond(ErrorResponse(encode))
              case Some(Connected) => Respond(Response(req.typ, encode(TransferPlayerResponse(StatusOk))))
  }

  /** A successful transfer answers with the request's own type, which is always the transfer type. */
  lemma {:induction false} SuccessAnswersTransferType(data: Bytes, decodeRequest: Bytes -> Option<Request>,
                                                      decodeTransfer: string -> Option<TransferPlayerRequest>, online: PlayerId -> bool,
                                                      servers: seq<Server>, connect: Server -> Option<ConnectionStatus>,
                                                      encode: TransferPlayerResponse -> string)
    ensures Transfer(data, decodeRequest, decodeTransfer, online, servers, connect, encode).Respond? ==>
      Transfer(data, decodeRequest, decodeTransfer, online, servers, connect, encode).response.typ == TypeTransferPlayer
  {
  }
}
