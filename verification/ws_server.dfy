/**
 * The Python relay's WebSocket side: the set of connected clients, the
 * broadcast that forwards one client's text to every other client, and the
 * endpoint that adds a client on accept and removes it on disconnect. Each
 * block guarded by the asyncio lock is one method. Which sends raise is a
 * parameter; clients are identified by number.
 */
module WsServer {
  import opened Wrappers

  /** A connected WebSocket, by identity. */
  type Client = nat

  class Relay {
    /** The module-level `clients` set. */
    var clients: set<Client>
    /** Every text delivered so far, with the client it went to. */
    var delivered: seq<(Client, string)>

    constructor ()
      ensures clients == {} && delivered == []
    {
      clients := {};
      delivered := [];
    }

    /** websocket_endpoint after accept: the client joins the set. */
    method Accept(ws: Client)
      modifies this`clients
      ensures clients == old(clients) + {ws}
    {
      clients := clients + {ws};
    }

    /**
     * websocket_endpoint on WebSocketDisconnect: the client leaves the set.
     * set.remove raises KeyError when a broadcast has already pruned it;
     * `raised` reports that case.
     */
    method Disconnect(ws: Client) returns (raised: bool)
      modifies this`clients
      ensures raised <==> ws !in old(clients)
      ensures clients == old(clients) - {ws}
    {
      raised := ws !in clients;
      clients := clients - {ws};
    }

    /**
     * broadcast: every client except the sender is sent the message once;
     * those whose send raises (`failing`) are collected and removed after
     * the loop, so the set is not changed while it is traversed.
     */
    method Broadcast(message: string, sender: Option<Client>, failing: set<Client>)
      modifies this
      ensures clients == old(clients) - Dead(old(clients), sender, failing)
      ensures |delivered| == |old(delivered)| + |Recipients(old(clients), sender, failing)|
      ensures delivered[..|old(delivered)|] == old(delivered)
      ensures forall k :: |old(delivered)| <= k < |delivered| ==> delivered[k].1 == message
      ensures Targets(delivered[|old(delivered)|..]) == Recipients(old(clients), sender, failing)
    {
      var dead, sent := SendAll(clients, message, sender, failing);
      delivered := delivered + sent;
      assert delivered[|old(delivered)|..] == sent;
      clients := clients - dead;
    }
  }

  /**
   * The loop of broadcast over the clients cs: the sender is skipped, a
   * send that raises puts the client on the dead list, and every other
   * client is sent the message once.
   */
  method SendAll(cs: set<Client>, message: string, sender: Option<Client>, failing: set<Client>)
    returns (dead: set<Client>, sent: seq<(Client, string)>)
    ensures dead == Dead(cs, sender, failing)
    ensures Targets(sent) == Recipients(cs, sender, failing) && |sent| == |Recipients(cs, sender, failing)|
    ensures forall k :: 0 <= k < |sent| ==> sent[k].1 == message
  {
    dead, sent := {}, [];
    var seen: set<Client> := {};
    var todo := cs;
    while todo != {}
      invariant seen <= cs && todo == cs - seen
      invariant dead == Dead(seen, sender, failing)
      invariant Targets(sent) == Recipients(seen, sender, failing) && |sent| == |Recipients(seen, sender, failing)|
      invariant forall d :: d in sent ==> d.1 == message
      decreases todo
    {
      var client :| client in todo;
      MoveOne(cs, seen, client);
      dead, sent := Visit(seen, dead, sent, client, message, sender, failing);
      todo := todo - {client};
      seen := seen + {client};
    }
  }

  /**
   * One iteration of broadcast's loop: the sender is skipped, a client whose
   * send raises joins the dead, and any other client is sent the message.
   */
  method Visit(seen: set<Client>, dead: set<Client>, sent: seq<(Client, string)>, client: Client,
               message: string, sender: Option<Client>, failing: set<Client>)
    returns (dead': set<Client>, sent': seq<(Client, string)>)
    requires client !in seen
    requires dead == Dead(seen, sender, failing)
    requires Targets(sent) == Recipients(seen, sender, failing) && |sent| == |Recipients(seen, sender, failing)|
    requires forall d :: d in sent ==> d.1 == message
    ensures dead' == Dead(seen + {client}, sender, failing)
    ensures Targets(sent') == Recipients(seen + {client}, sender, failing)
    ensures |sent'| == |Recipients(seen + {client}, sender, failing)|
    ensures forall d :: d in sent' ==> d.1 == message
  {
    RecipientsStep(seen, client, sender, failing);
    dead', sent' := dead, sent;
    if Some(client) != sender {
      if client in failing {
        dead' := dead + {client};
      } else {
        TargetsAppend(sent, (client, message));
        sent' := sent + [(client, message)];
      }
    }
  }

  /** Moving one unvisited client from the rest to the visited ones. */
  lemma MoveOne(cs: set<Client>, seen: set<Client>, c: Client)
    requires c in cs - seen
    ensures (cs - seen) - {c} == cs - (seen + {c})
  {
  }

  /** Appending a delivery adds its client to the targets. */
  lemma TargetsAppend(sent: seq<(Client, string)>, d: (Client, string))
    ensures Targets(sent + [d]) == Targets(sent) + {d.0}
  {
    var t := sent + [d];
    assert t[|sent|].0 == d.0;
    forall c | c in Targets(sent)
      ensures c in Targets(t)
    {
      var k :| 0 <= k < |sent| && sent[k].0 == c;
      assert t[k] == sent[k];
    }
  }

  /** The clients of cs a broadcast from sender drops: the ones other than the sender whose send raises. */
  function Dead(cs: set<Client>, sender: Option<Client>, failing: set<Client>): set<Client> {
    set c | c in cs && Some(c) != sender && c in failing
  }

  /** The clients of cs a broadcast from sender reaches: the ones other than the sender whose send succeeds. */
  function Recipients(cs: set<Client>, sender: Option<Client>, failing: set<Client>): set<Client> {
    set c | c in cs && Some(c) != sender && c !in failing
  }

  /**
   * A broadcast splits the clients three ways: the sender, the ones it
   * reaches and the ones it drops; it never drops or reaches the sender.
   */
  lemma BroadcastPartition(cs: set<Client>, sender: Option<Client>, failing: set<Client>)
    ensures Recipients(cs, sender, failing) !! Dead(cs, sender, failing)
    ensures Recipients(cs, sender, failing) + Dead(cs, sender, failing) + (if sender.Some? && sender.value in cs then {sender.value} else {}) == cs
    ensures sender.Some? ==> sender.value !in Recipients(cs, sender, failing) + Dead(cs, sender, failing)
  {
  }

  /** The clients a sequence of deliveries went to. */
  function Targets(sent: seq<(Client, string)>): set<Client> {
    set k | 0 <= k < |sent| :: sent[k].0
  }

  /** Visiting one more client adds it to the recipients or to the dead, or to neither when it is the sender. */
  lemma RecipientsStep(seen: set<Client>, c: Client, sender: Option<Client>, failing: set<Client>)
    requires c !in seen
    ensures Recipients(seen + {c}, sender, failing) ==
              Recipients(seen, sender, failing) + (if Some(c) != sender && c !in failing then {c} else {})
    ensures Dead(seen + {c}, sender, failing) ==
              Dead(seen, sender, failing) + (if Some(c) != sender && c in failing then {c} else {})
  {
  }
}
