/**
 * The web UI's WebSocket provider (lib/contexts): one socket to the relay,
 * a table of subscribers keyed by run id (with "*" for every message), and
 * a reconnect policy that retries at most five times in a row after an
 * abnormal close. The socket's events (open, message, close) and the
 * reconnect timer firing are methods the environment calls; subscriber
 * callbacks are identified by number, and each invocation is logged.
 */
module WsContext {
  import opened Wrappers
  import Json
  import WsAgent

  const MaxReconnectAttempts: nat := 5
  /** Milliseconds between a close and the reconnect it schedules. */
  const ReconnectDelay: nat := 3000
  /** The relay address used when NEXT_PUBLIC_WS_URL is not set. */
  const DefaultUrl: string := "ws://127.0.0.1:8765/ws"
  /** The close code of a normal closure, which is never retried. */
  const NormalClosure: int := 1000
  /** The subscription key that receives every message. */
  const Everything: string := "*"

  /** A subscriber's callback, by identity. */
  type Callback = nat

  /**
   * WebSocketMessage as the provider builds it: each member is the inbound
   * object's "type", "runId" and "payload", and None when the member is
   * absent (undefined).
   */
  datatype Message = Message(msgType: Option<Json.Value>, runID: Option<Json.Value>, payload: Option<Json.Value>)

  /**
   * The mapping of JSON.parse's result: reading a member of null throws, so
   * null gives no message; any other value gives its three members, which
   * are undefined for a value that is not an object.
   */
  function ToMessage(raw: Json.Value): (m: Option<Message>)
    ensures m.None? <==> raw.Null?
    ensures m.Some? && raw.Obj? ==> m.value.msgType == Json.Get(raw, "type") && m.value.runID == Json.Get(raw, "runId")
    ensures m.Some? && raw.Obj? ==> m.value.payload == Json.Get(raw, "payload")
    ensures m.Some? && !raw.Obj? ==> m.value == Message(None, None, None)
  {
    if raw.Null? then None
    else Some(Message(Json.Get(raw, "type"), Json.Get(raw, "runId"), Json.Get(raw, "payload")))
  }

  /** The message an inbound text yields, if any; None for text JSON.parse rejects. */
  function Decode(text: Option<Json.Value>): (m: Option<Message>)
    ensures m.None? <==> text.None? || text.value.Null?
  {
    if text.None? then None else ToMessage(text.value)
  }

  /** The message carries run id `id` as a string, which is the only way Map.get finds a subscriber for it. */
  predicate Addressed(m: Message, id: string) {
    m.runID == Some(Json.Str(id))
  }

  /**
   * The callbacks onmessage invokes, in order: the "*" subscriber, then the
   * subscriber for the message's run id, each when present.
   */
  function Deliveries(subs: map<string, Callback>, text: Option<Json.Value>): (r: seq<(Callback, Message)>)
    ensures |r| <= 2
    ensures forall k :: 0 <= k < |r| ==> Decode(text).Some? && r[k].1 == Decode(text).value
    ensures Decode(text).Some? && Everything in subs ==> r != [] && r[0].0 == subs[Everything]
  {
    match Decode(text)
    case None => []
    case Some(m) =>
      (if Everything in subs then [(subs[Everything], m)] else [])
      + (match m.runID
         case Some(Str(id)) => if id in subs then [(subs[id], m)] else []
         case _ => [])
  }

  /** Text JSON.parse rejects, or null, reaches no subscriber. */
  lemma UnparsedReachesNobody(subs: map<string, Callback>, text: Option<Json.Value>)
    requires text.None? || text.value.Null?
    ensures Deliveries(subs, text) == []
  {
  }

  /**
   * The routing of a parsed message: every invocation is given the
   * message; there is one for the "*" subscriber, when there is one, and it
   * comes first; and one for the subscriber of the message's run id, when
   * there is one, and it comes last. Nothing else is invoked.
   */
  lemma Routing(subs: map<string, Callback>, text: Option<Json.Value>, m: Message)
    requires Decode(text) == Some(m)
    ensures forall k :: 0 <= k < |Deliveries(subs, text)| ==> Deliveries(subs, text)[k].1 == m
    ensures |Deliveries(subs, text)| ==
              (if Everything in subs then 1 else 0) + (if exists id :: id in subs && Addressed(m, id) then 1 else 0)
    ensures Everything in subs ==> Deliveries(subs, text)[0] == (subs[Everything], m)
    ensures forall id :: id in subs && Addressed(m, id) ==>
              Deliveries(subs, text)[|Deliveries(subs, text)| - 1] == (subs[id], m)
  {
  }

  /** A message whose run id is "*" reaches the "*" subscriber twice. */
  lemma EverythingTwice(subs: map<string, Callback>, text: Option<Json.Value>, m: Message)
    requires Decode(text) == Some(m) && Addressed(m, Everything) && Everything in subs
    ensures Deliveries(subs, text) == [(subs[Everything], m), (subs[Everything], m)]
  {
  }

  /**
   * An agent event, as the agent marshals it, is delivered whole: the "*"
   * subscriber (when there is one) and the subscriber of its run id each
   * receive its type, run id and payload.
   */
  lemma AgentEventDelivered(subs: map<string, Callback>, ev: WsAgent.Event, ts: Json.Value)
    requires ev.runID in subs && ev.runID != Everything
    ensures Deliveries(subs, Some(WsAgent.Marshal(ev, ts))) ==
              (if Everything in subs then [(subs[Everything], AgentMessage(ev))] else []) + [(subs[ev.runID], AgentMessage(ev))]
  {
    var v := WsAgent.Marshal(ev, ts);
    assert Decode(Some(v)) == Some(AgentMessage(ev));
  }

  /** The message the provider builds from an agent event. */
  function AgentMessage(ev: WsAgent.Event): Message {
    Message(Some(Json.Str(ev.evType)), Some(Json.Str(ev.runID)), Some(ev.payload))
  }

  /** Once `id` is unsubscribed, a message for it reaches only the "*" subscriber. */
  lemma UnsubscribedReachesOnlyEverything(subs: map<string, Callback>, id: string, text: Option<Json.Value>, m: Message)
    requires Decode(text) == Some(m) && Addressed(m, id) && id != Everything
    ensures Deliveries(subs - {id}, text) == if Everything in subs then [(subs[Everything], m)] else []
  {
  }

  /** After subscribing cb for `id`, a message for it ends with cb, whatever was subscribed for `id` before. */
  lemma SubscribedReached(subs: map<string, Callback>, id: string, cb: Callback, text: Option<Json.Value>, m: Message)
    requires Decode(text) == Some(m) && Addressed(m, id) && id != Everything
    ensures Deliveries(subs[id := cb], text) == (if Everything in subs then [(subs[Everything], m)] else []) + [(cb, m)]
  {
  }

  // ---- the reconnect policy ----

  /**
   * The close handler's decision after `attempts` retries in a row: a close
   * other than a normal closure is retried while fewer than five retries
   * were made, and a retry counts one more attempt.
   */
  function CloseStep(attempts: nat, code: int): (r: (nat, bool))
    ensures r.1 <==> code != NormalClosure && attempts < MaxReconnectAttempts
    ensures r.0 == if r.1 then attempts + 1 else attempts
  {
    if code != NormalClosure && attempts < MaxReconnectAttempts then (attempts + 1, true) else (attempts, false)
  }

  /** The retries a run of closes schedules, with no successful open in between. */
  function Retries(attempts: nat, codes: seq<int>): nat
    decreases |codes|
  {
    if codes == [] then 0
    else
      var (a, scheduled) := CloseStep(attempts, codes[0]);
      (if scheduled then 1 else 0) + Retries(a, codes[1..])
  }

  /** At most five reconnects in a row: a run of closes schedules no more than the attempts left. */
  lemma {:induction false} RetriesBounded(attempts: nat, codes: seq<int>)
    requires attempts <= MaxReconnectAttempts
    ensures Retries(attempts, codes) <= MaxReconnectAttempts - attempts
    decreases |codes|
  {
    if codes != [] {
      RetriesBounded(CloseStep(attempts, codes[0]).0, codes[1..]);
    }
  }

  /** Abnormal closes use up all the attempts left: enough of them schedule exactly that many retries. */
  lemma {:induction false} RetriesExhausted(attempts: nat, codes: seq<int>)
    requires attempts <= MaxReconnectAttempts && |codes| >= MaxReconnectAttempts - attempts
    requires forall k :: 0 <= k < |codes| ==> codes[k] != NormalClosure
    ensures Retries(attempts, codes) == MaxReconnectAttempts - attempts
    decreases |codes|
  {
    if codes != [] {
      if attempts < MaxReconnectAttempts {
        RetriesExhausted(attempts + 1, codes[1..]);
      } else {
        RetriesBounded(attempts, codes[1..]);
      }
    }
  }

  /** Normal closures are never retried. */
  lemma {:induction false} NormalClosesNotRetried(attempts: nat, codes: seq<int>)
    requires forall k :: 0 <= k < |codes| ==> codes[k] == NormalClosure
    ensures Retries(attempts, codes) == 0
    decreases |codes|
  {
    if codes != [] {
      NormalClosesNotRetried(attempts, codes[1..]);
    }
  }

  /** wsRef.current: no socket, or a socket by its readyState. */
  datatype Socket = NoSocket | Connecting | Open | Closing

  /** WebSocketProvider's refs and state. */
  class Provider {
    var socket: Socket
    var isConnected: bool
    var reconnectAttempts: nat
    /** A reconnect timer is set and has not fired or been cleared. */
    var reconnectPending: bool
    var subscriptions: map<string, Callback>
    /** Every callback invocation so far, with the message it was given. */
    var invoked: seq<(Callback, Message)>

    ghost predicate Valid()
      reads this
    {
      reconnectAttempts <= MaxReconnectAttempts
    }

    constructor ()
      ensures Valid()
      ensures socket == NoSocket && !isConnected && reconnectAttempts == 0 && !reconnectPending
      ensures subscriptions == map[] && invoked == []
    {
      socket := NoSocket;
      isConnected := false;
      reconnectAttempts := 0;
      reconnectPending := false;
      subscriptions := map[];
      invoked := [];
    }

    /** connect: nothing while a socket is open; otherwise a new socket, connecting, replaces the ref. */
    method Connect() returns (created: bool)
      modifies this`socket
      ensures created <==> old(socket) != Open
      ensures socket == if created then Connecting else Open
    {
      if socket == Open {
        return false;
      }
      socket := Connecting;
      created := true;
    }

    /** onopen: connected, and the run of retries starts again from zero. */
    method OnOpen()
      requires Valid()
      modifies this`socket, this`isConnected, this`reconnectAttempts
      ensures Valid()
      ensures socket == Open && isConnected && reconnectAttempts == 0
    {
      socket := Open;
      isConnected := true;
      reconnectAttempts := 0;
    }

    /** onmessage: the inbound text (None when JSON.parse rejects it) reaches the subscribers Deliveries names, in order. */
    method OnMessage(text: Option<Json.Value>)
      modifies this`invoked
      ensures invoked == old(invoked) + Deliveries(subscriptions, text)
    {
      if text.None? || text.value.Null? {
        return;
      }
      var m := Message(Json.Get(text.value, "type"), Json.Get(text.value, "runId"), Json.Get(text.value, "payload"));
      if Everything in subscriptions {
        invoked := invoked + [(subscriptions[Everything], m)];
      }
      if m.runID.Some? && m.runID.value.Str? && m.runID.value.s in subscriptions {
        invoked := invoked + [(subscriptions[m.runID.value.s], m)];
      }
    }

    /**
     * onclose: disconnected with the ref cleared; a retry is scheduled, and
     * counted, exactly when CloseStep says so.
     */
    method OnClose(code: int) returns (scheduled: bool)
      requires Valid()
      modifies this`socket, this`isConnected, this`reconnectAttempts, this`reconnectPending
      ensures Valid()
      ensures (reconnectAttempts, scheduled) == CloseStep(old(reconnectAttempts), code)
      ensures scheduled <==> code != NormalClosure && old(reconnectAttempts) < MaxReconnectAttempts
      ensures socket == NoSocket && !isConnected
      ensures reconnectPending == (old(reconnectPending) || scheduled)
    {
      isConnected := false;
      socket := NoSocket;
      scheduled := false;
      if code != NormalClosure && reconnectAttempts < MaxReconnectAttempts {
        reconnectAttempts := reconnectAttempts + 1;
        reconnectPending := true;
        scheduled := true;
      }
    }

    /** The reconnect timer fires after ReconnectDelay: connect runs again. */
    method ReconnectTimerFires() returns (created: bool)
      requires reconnectPending
      modifies this`socket, this`reconnectPending
      ensures !reconnectPending
      ensures created <==> old(socket) != Open
      ensures socket == if created then Connecting else Open
    {
      reconnectPending := false;
      created := Connect();
    }

    /**
     * disconnect, on unmount: the pending reconnect is cleared, and a socket
     * that exists is asked to close with code 1000. An open socket then
     * closes with 1000 and its onclose schedules nothing; a socket still
     * connecting is aborted, closes with 1006, and its onclose schedules a
     * reconnect while attempts remain (see CloseStep).
     */
    method Disconnect() returns (closeSent: bool)
      modifies this`reconnectPending, this`socket
      ensures !reconnectPending
      ensures closeSent <==> old(socket) != NoSocket
      ensures socket == if closeSent then Closing else NoSocket
    {
      reconnectPending := false;
      closeSent := socket != NoSocket;
      if closeSent {
        socket := Closing;
      }
    }

    /** subscribe: one callback per id, replacing any earlier one. */
    method Subscribe(id: string, cb: Callback)
      modifies this`subscriptions
      ensures subscriptions == old(subscriptions)[id := cb]
    {
      subscriptions := subscriptions[id := cb];
    }

    /** unsubscribe: removes only that id. */
    method Unsubscribe(id: string)
      modifies this`subscriptions
      ensures subscriptions == old(subscriptions) - {id}
    {
      subscriptions := subscriptions - {id};
    }
  }
}
