/**
 * The event bus of one subject: a table from request type to handler, and
 * the dispatch rule applied to every message that arrives on the subject.
 */
module Bus {
  import opened Wrappers
  import opened Messaging
  import opened Rpc

  /** Identity of a registered handler function. */
  type HandlerId = nat

  /** What dispatching one message does, in order. */
  datatype BusAction =
    | Invoke(handler: HandlerId, msg: Message, req: Request)  // the handler is called with the message and the decoded request
    | Issue(call: MessagerCall)                                // the bus itself asks the backend for an ack or nak

  class EventBus {
    const subject: string
    var handlers: map<RequestType, HandlerId>

    constructor (s: string)
      ensures subject == s && handlers == map[]
    {
      subject := s;
      handlers := map[];
    }

    /** `Register`: `h` now answers `t`, replacing any earlier handler; the returned closure unregisters `t`. */
    method Register(t: RequestType, h: HandlerId) returns (u: Unregisterer)
      modifies this
      ensures handlers == old(handlers)[t := h]
      ensures fresh(u) && u.bus == this && u.t == t
    {
      handlers := handlers[t := h];
      u := new Unregisterer(this, t);
    }

    /**
     * `Handle`: a payload that is not a request is dropped; a request whose
     * type has no handler is rejected once; otherwise its handler is called
     * exactly once and, if that call fails, the message is rejected once.
     * The bus never acknowledges anything itself.
     */
    function Handle(msg: Message, decoded: Option<Request>, handlerFails: bool): (acts: seq<BusAction>)
      reads this
      ensures decoded.None? ==> acts == []
      ensures decoded.Some? && decoded.value.typ !in handlers ==> acts == [Issue(NakCall(msg))]
      ensures decoded.Some? && decoded.value.typ in handlers ==>
        && |acts| >= 1
        && acts[0] == Invoke(handlers[decoded.value.typ], msg, decoded.value)
        && acts[1..] == (if handlerFails then [Issue(NakCall(msg))] else [])
      ensures forall i | 0 <= i < |acts| :: acts[i].Issue? ==> acts[i].call == NakCall(msg)
      ensures forall i, j | 0 <= i < j < |acts| :: !(acts[i].Issue? && acts[j].Issue?)
      ensures forall i, j | 0 <= i < j < |acts| :: !(acts[i].Invoke? && acts[j].Invoke?)
    {
      match decoded
      case None => []
      case Some(req) =>
        if req.typ !in handlers then [Issue(NakCall(msg))]
        else [Invoke(handlers[req.typ], msg, req)] + (if handlerFails then [Issue(NakCall(msg))] else [])
    }
  }

  /** The closure `Register` returns. */
  class Unregisterer {
    const bus: EventBus
    const t: RequestType

    constructor (b: EventBus, typ: RequestType)
      ensures bus == b && t == typ
    {
      bus := b;
      t := typ;
    }

    /** Removes whatever handler is registered under `t` now, whoever registered it. */
    method Call()
      modifies bus
      ensures bus.handlers == old(bus.handlers) - {t}
    {
      bus.handlers := bus.handlers - {t};
    }
  }

  /**
   * `NewEventBus`: a bus with no handlers subscribed to `subject`, or the
   * backend's subscription error.
   */
  method NewEventBus(subject: string, subscribed: Outcome<MessagingError>) returns (r: Result<EventBus, MessagingError>)
    ensures subscribed.Fail? ==> r == Failure(subscribed.error)
    ensures subscribed.Pass? ==> r.Success? && fresh(r.value) && r.value.subject == subject && r.value.handlers == map[]
  {
    var b := new EventBus(subject);
    if subscribed.Fail? {
      return Failure(subscribed.error);
    }
    return Success(b);
  }

  /**
   * A stale closure removes a newer registration: register `h1`, then `h2`
   * under the same type, then call the first closure; no handler is left.
   */
  method StaleUnregister(t: RequestType, h1: HandlerId, h2: HandlerId) returns (registered: bool)
    ensures !registered
  {
    var bus := new EventBus("subject");
    var first := bus.Register(t, h1);
    var second := bus.Register(t, h2);
    first.Call();
    registered := t in bus.handlers;
  }
}
