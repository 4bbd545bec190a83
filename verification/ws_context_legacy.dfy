/**
 * The older WebSocket provider (lib/context): progress messages are routed
 * to one subscriber per run id, the subscriber table is replaced by a copy
 * on every change, and every close schedules a reconnect after five
 * seconds. Two defects of the handler are modelled as written next to the
 * corrected routing: it reads the members "Type", "RunID" and "Payload",
 * which the agent's events do not have, and it reads the subscriber map of
 * the first render.
 */
module WsContextLegacy {
  import opened Wrappers
  import Json
  import WsAgent

  /** The relay address the provider connects to. */
  const Url: string := "ws://localhost:8000/ws"
  /** Milliseconds between a close and the reconnect it schedules. */
  const ReconnectDelay: nat := 5000
  /** The only message type the handler dispatches. */
  const ProgressType: string := "progress"

  /** A subscriber's callback, by identity. */
  type Callback = nat

  /** The object a subscriber is called with: `{ runId, payload }`; None is an undefined payload. */
  datatype Delivery = Delivery(runId: string, payload: Option<Json.Value>)

  // ---- the subscriber table ----

  /**
   * The subscriber maps. `current` is the state the provider renders with;
   * `mounted` is the Map object of the first render, which the message
   * handler, set up once on mount, closes over; `shared` holds while the
   * state still is that very object.
   */
  datatype Subscribers = Subscribers(mounted: map<string, Callback>, current: map<string, Callback>, shared: bool)

  /** The state of the first render: one empty map, seen by both. */
  const Initial: Subscribers := Subscribers(map[], map[], true)

  /** While the state is the first render's object, the two maps agree. */
  predicate Valid(s: Subscribers) {
    s.shared ==> s.mounted == s.current
  }

  /**
   * subscribe: `prev.set(runId, callback)` writes into the state's Map
   * object, and a copy of it becomes the new state. The state holds the new
   * callback for runId and keeps every other entry; the first render's map
   * is written only while it is still the state.
   */
  function Subscribe(s: Subscribers, runId: string, cb: Callback): (r: Subscribers)
    requires Valid(s)
    ensures Valid(r) && !r.shared
    ensures runId in r.current && r.current[runId] == cb
    ensures forall id :: id != runId ==> (id in r.current <==> id in s.current)
    ensures forall id :: id != runId && id in s.current ==> r.current[id] == s.current[id]
    ensures !s.shared ==> r.mounted == s.mounted
  {
    Subscribers(if s.shared then s.mounted[runId := cb] else s.mounted, s.current[runId := cb], false)
  }

  /** unsubscribe: a copy without runId becomes the state; no map is written, so the first render's keeps it. */
  function Unsubscribe(s: Subscribers, runId: string): (r: Subscribers)
    requires Valid(s)
    ensures Valid(r) && !r.shared
    ensures runId !in r.current
    ensures forall id :: id != runId ==> (id in r.current <==> id in s.current)
    ensures forall id :: id != runId && id in s.current ==> r.current[id] == s.current[id]
    ensures r.mounted == s.mounted
  {
    Subscribers(s.mounted, s.current - {runId}, false)
  }

  // ---- onmessage as written ----

  /**
   * The handler as written, on the JSON.parse result of the text (None when
   * it throws): reading a member of null throws; otherwise a message whose
   * "Type" is "progress" and whose "RunID" is a non-empty string is handed to
   * that run id's subscriber in the first render's map, with `payloadParse`
   * as JSON.parse's result on the "Payload" member (None when it throws).
   * Every throw is caught and invokes nothing.
   */
  function DispatchAsWritten(s: Subscribers, text: Option<Json.Value>, payloadParse: Option<Json.Value>): (r: seq<(Callback, Delivery)>)
    ensures |r| <= 1
    ensures r != [] ==> text.Some? && Json.Get(text.value, "Type") == Some(Json.Str(ProgressType))
    ensures r != [] ==> exists id :: id != "" && Json.Get(text.value, "RunID") == Some(Json.Str(id)) && id in s.mounted &&
                         r == [(s.mounted[id], Delivery(id, payloadParse))]
  {
    if text.None? || text.value.Null? then []
    else
      var t, id := Json.Get(text.value, "Type"), Json.Get(text.value, "RunID");
      if t == Some(Json.Str(ProgressType)) && id.Some? && id.value.Str? && id.value.s != "" && id.value.s in s.mounted && payloadParse.Some?
      then [(s.mounted[id.value.s], Delivery(id.value.s, payloadParse))]
      else []
  }

  /** No event the agent sends is ever dispatched: its members are "type", "runId" and "payload", so "Type" is missing. */
  lemma AsWrittenIgnoresAgentEvents(s: Subscribers, ev: WsAgent.Event, ts: Json.Value, payloadParse: Option<Json.Value>)
    ensures DispatchAsWritten(s, Some(WsAgent.Marshal(ev, ts)), payloadParse) == []
  {
    var v := WsAgent.Marshal(ev, ts);
    assert "Type" !in v.fields.Keys;
  }

  /**
   * Only the first subscription reaches the handler: after subscribing "a"
   * and then "b", a progress message for "b", even one spelled with the
   * members the handler reads, is dispatched to nobody.
   */
  lemma AsWrittenMissesLaterSubscribers()
    ensures var s := Subscribe(Subscribe(Initial, "a", 1), "b", 2);
            DispatchAsWritten(s, Some(Json.Obj(map["Type" := Json.Str("progress"), "RunID" := Json.Str("b"), "Payload" := Json.Str("{}")])),
                              Some(Json.Obj(map[]))) == []
  {
    var s := Subscribe(Subscribe(Initial, "a", 1), "b", 2);
    assert s.mounted == map["a" := 1];
  }

  /** And an unsubscribed first subscriber keeps receiving. */
  lemma AsWrittenKeepsUnsubscribed()
    ensures var s := Unsubscribe(Subscribe(Initial, "a", 1), "a");
            DispatchAsWritten(s, Some(Json.Obj(map["Type" := Json.Str("progress"), "RunID" := Json.Str("a"), "Payload" := Json.Str("{}")])),
                              Some(Json.Obj(map[]))) == [(1, Delivery("a", Some(Json.Obj(map[]))))]
  {
    var s := Unsubscribe(Subscribe(Initial, "a", 1), "a");
    assert s.mounted == map["a" := 1];
  }

  // ---- onmessage as intended ----

  /**
   * The handler as intended: the members "type", "runId" and "payload" the
   * agent writes, the payload passed on as it arrives (it is already JSON),
   * and the subscriber table of the current state.
   */
  function Dispatch(s: Subscribers, text: Option<Json.Value>): (r: seq<(Callback, Delivery)>)
    ensures |r| <= 1
    ensures r != [] ==> text.Some? && Json.Get(text.value, "type") == Some(Json.Str(ProgressType))
    ensures r != [] ==> exists id :: id != "" && Json.Get(text.value, "runId") == Some(Json.Str(id)) && id in s.current &&
                         r == [(s.current[id], Delivery(id, Json.Get(text.value, "payload")))]
  {
    if text.None? || text.value.Null? then []
    else
      var t, id := Json.Get(text.value, "type"), Json.Get(text.value, "runId");
      if t == Some(Json.Str(ProgressType)) && id.Some? && id.value.Str? && id.value.s != "" && id.value.s in s.current
      then [(s.current[id.value.s], Delivery(id.value.s, Json.Get(text.value, "payload")))]
      else []
  }

  /** A progress event from the agent reaches its run's subscriber, with the event's payload. */
  lemma ProgressEventDelivered(s: Subscribers, ev: WsAgent.Event, ts: Json.Value)
    requires ev.evType == ProgressType && ev.runID != "" && ev.runID in s.current
    ensures Dispatch(s, Some(WsAgent.Marshal(ev, ts))) == [(s.current[ev.runID], Delivery(ev.runID, Some(ev.payload)))]
  {
  }

  /** Any other event type reaches nobody. */
  lemma OtherEventsIgnored(s: Subscribers, ev: WsAgent.Event, ts: Json.Value)
    requires ev.evType != ProgressType
    ensures Dispatch(s, Some(WsAgent.Marshal(ev, ts))) == []
  {
  }

  /** Every subscription counts: after subscribing cb for a run, that run's progress goes to cb. */
  lemma SubscriberReached(s: Subscribers, ev: WsAgent.Event, ts: Json.Value, cb: Callback)
    requires Valid(s) && ev.evType == ProgressType && ev.runID != ""
    ensures Dispatch(Subscribe(s, ev.runID, cb), Some(WsAgent.Marshal(ev, ts))) == [(cb, Delivery(ev.runID, Some(ev.payload)))]
  {
    ProgressEventDelivered(Subscribe(s, ev.runID, cb), ev, ts);
  }

  /** After unsubscribing a run, its progress reaches nobody. */
  lemma UnsubscribedNotReached(s: Subscribers, ev: WsAgent.Event, ts: Json.Value)
    requires Valid(s)
    ensures Dispatch(Unsubscribe(s, ev.runID), Some(WsAgent.Marshal(ev, ts))) == []
  {
  }

  /** The two examples above, with the corrected handler: "b" is reached, and the unsubscribed "a" is not. */
  lemma CorrectedExamples()
    ensures var s := Subscribe(Subscribe(Initial, "a", 1), "b", 2);
            Dispatch(s, Some(Json.Obj(map["type" := Json.Str("progress"), "runId" := Json.Str("b"), "payload" := Json.Obj(map[])])))
              == [(2, Delivery("b", Some(Json.Obj(map[]))))]
    ensures var s := Unsubscribe(Subscribe(Initial, "a", 1), "a");
            Dispatch(s, Some(Json.Obj(map["type" := Json.Str("progress"), "runId" := Json.Str("a"), "payload" := Json.Obj(map[])]))) == []
  {
    var s := Subscribe(Subscribe(Initial, "a", 1), "b", 2);
    assert s.current == map["a" := 1, "b" := 2];
  }

  // ---- the connection ----

  /** The provider's connection state. */
  class Connection {
    /** The socket the state holds is open. */
    var isConnected: bool
    /** Reconnect timers set and not yet fired. */
    var pendingReconnects: nat
    /** Sockets created so far. */
    var sockets: nat

    constructor ()
      ensures !isConnected && pendingReconnects == 0 && sockets == 0
    {
      isConnected := false;
      pendingReconnects := 0;
      sockets := 0;
    }

    /** connectWebSocket: always a new socket, whatever the state. */
    method ConnectWebSocket()
      modifies this`sockets
      ensures sockets == old(sockets) + 1
    {
      sockets := sockets + 1;
    }

    /** onopen: connected. */
    method OnOpen()
      modifies this`isConnected
      ensures isConnected
    {
      isConnected := true;
    }

    /** onclose: disconnected, and a reconnect is scheduled whatever the close was and however many came before. */
    method OnClose()
      modifies this`isConnected, this`pendingReconnects
      ensures !isConnected
      ensures pendingReconnects == old(pendingReconnects) + 1
    {
      isConnected := false;
      pendingReconnects := pendingReconnects + 1;
    }

    /** A reconnect timer fires after ReconnectDelay and creates a new socket. */
    method ReconnectTimerFires()
      requires pendingReconnects > 0
      modifies this`pendingReconnects, this`sockets
      ensures pendingReconnects == old(pendingReconnects) - 1
      ensures sockets == old(sockets) + 1
    {
      pendingReconnects := pendingReconnects - 1;
      ConnectWebSocket();
    }
  }
}
