/**
 * A message received from the messaging backend and the operations it
 * offers: answer on its reply subject, acknowledge, reject, and render for
 * logs. The backend itself is outside the model; what a message asks of it
 * is recorded as a `MessagerCall`, and the backend's answer is a parameter.
 */
module Messaging {
  import opened Wrappers
  import opened KvTypes

  /** Identity of the backend a message came from (its `Messager`). */
  type MessagerId = nat

  /** Error reported by the backend. */
  datatype MessagingError = MessagingError(code: int)

  datatype Message = Message(owner: MessagerId, topic: string, data: Bytes, replyTo: Option<string>)

  /** A request a message hands to its backend. */
  datatype MessagerCall =
    | Publish(via: MessagerId, topic: string, payload: Bytes)
    | AckCall(msg: Message)
    | NakCall(msg: Message)

  /** The backend calls an operation issued, and the error it returned. */
  datatype Effect = Effect(calls: seq<MessagerCall>, result: Outcome<MessagingError>)

  /**
   * `Respond`: without a reply subject nothing is published and the answer is
   * success; otherwise exactly `payload` is published to the reply subject
   * through the message's own backend, and the backend's answer is returned.
   */
  function Respond(m: Message, payload: Bytes, published: Outcome<MessagingError>): (r: Effect)
    ensures m.replyTo.None? ==> r == Effect([], Pass)
    ensures m.replyTo.Some? ==> r.result == published
    ensures |r.calls| <= 1
    ensures forall c | c in r.calls :: c == Publish(m.owner, m.replyTo.value, payload)
    ensures m.replyTo.Some? ==> r.calls == [Publish(m.owner, m.replyTo.value, payload)]
  {
    match m.replyTo
    case None => Effect([], Pass)
    case Some(to) => Effect([Publish(m.owner, to, payload)], published)
  }

  /** `Ack`: one acknowledgement of this very message, handed to its own backend. */
  function Ack(m: Message, answered: Outcome<MessagingError>): (r: Effect)
    ensures r.calls == [AckCall(m)] && r.result == answered
  {
    Effect([AckCall(m)], answered)
  }

  /** `Nak`: one rejection of this very message, handed to its own backend. */
  function Nak(m: Message, answered: Outcome<MessagingError>): (r: Effect)
    ensures r.calls == [NakCall(m)] && r.result == answered
  {
    Effect([NakCall(m)], answered)
  }

  /** The raw bytes of a payload written into a string, one character per byte. */
  function Chars(d: Bytes): (s: string)
    ensures |s| == |d|
    ensures forall i | 0 <= i < |d| :: s[i] as int == d[i] as int
  {
    seq(|d|, i requires 0 <= i < |d| => (d[i] as int) as char)
  }

  /** The middle part of the log line: present only when the message has a reply subject. */
  function ReplyPart(replyTo: Option<string>): string
  {
    match replyTo
    case None => ""
    case Some(r) => " (<- " + r + ") "
  }

  /**
   * `String`: the topic and a space, then ` (<- reply) ` when there is a
   * reply subject, then `-> ` and the raw payload.
   */
  function Render(m: Message): (s: string)
    ensures |s| == |m.topic| + 1 + (if m.replyTo.Some? then |m.replyTo.value| + 7 else 0) + 3 + |m.data|
    ensures s[..|m.topic| + 1] == m.topic + " "
    ensures m.replyTo.Some? ==> s[|m.topic| + 1..|m.topic| + |m.replyTo.value| + 8] == " (<- " + m.replyTo.value + ") "
    ensures s[|s| - |m.data| - 3..] == "-> " + Chars(m.data)
  {
    var head := m.topic + " ";
    var mid := ReplyPart(m.replyTo);
    var tail := "-> " + Chars(m.data);
    assert (head + mid + tail)[..|head|] == head;
    assert (head + mid + tail)[|head|..|head| + |mid|] == mid;
    assert (head + mid + tail)[|head| + |mid|..] == tail;
    head + mid + tail
  }
}
