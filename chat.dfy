/**
 * The websocket chat's connection manager: a list of active connections, and every message
 * sent to a connection recorded, in order, as one delivery in the manager's outbox.
 */
module Chat {
  import opened Results
  import opened PyLists

  /** `Message`: the JSON object every chat frame carries. */
  datatype Message = Message(author: string, text: string, timestamp: string)

  /** One `send_json` call: the message and the connection it went to. */
  datatype Delivery = Delivery(to: Connection, message: Message)

  datatype ChatError = ValueError(message: string)

  const SERVER := "Server"
  const NOT_IN_LIST := "list.remove(x): x not in list"

  function GreetText(clientId: string): string { clientId + " enters the chat" }

  function ByeText(clientId: string): string { clientId + " disconnected" }

  /** A greeting and a farewell never carry the same text, whoever they are about. */
  lemma ServerTextsDiffer(a: string, b: string)
    ensures GreetText(a) != ByeText(b)
  {
    assert GreetText(a)[|GreetText(a)| - 1] == 't';
    assert ByeText(b)[|ByeText(b)| - 1] == 'd';
  }

  /** A websocket together with the id of the client on it; compared by identity. */
  class Connection {
    const socket: nat
    const clientId: string

    constructor (socket: nat, clientId: string)
      ensures this.socket == socket && this.clientId == clientId
    {
      this.socket := socket;
      this.clientId := clientId;
    }
  }

  /** The deliveries of one broadcast: one per connection, in list order. */
  function Deliveries(connections: seq<Connection>, m: Message): (r: seq<Delivery>)
    ensures |r| == |connections|
    ensures forall i :: 0 <= i < |r| ==> r[i] == Delivery(connections[i], m)
  {
    if connections == [] then []
    else Deliveries(connections[..|connections| - 1], m) + [Delivery(connections[|connections| - 1], m)]
  }

  /** A broadcast reaches exactly the listed connections. */
  lemma ReachesExactlyListed(connections: seq<Connection>, m: Message, c: Connection)
    ensures Delivery(c, m) in Deliveries(connections, m) <==> c in connections
    ensures forall d :: d in Deliveries(connections, m) ==> d.message == m && d.to in connections
  {
    if c in connections {
      var i :| 0 <= i < |connections| && connections[i] == c;
      assert Deliveries(connections, m)[i] == Delivery(c, m);
    }
  }

  class ConnectionManager {
    var activeConnections: seq<Connection>
    var outbox: seq<Delivery>

    predicate Valid()
      reads this
    {
      Distinct(activeConnections)
    }

    /** A new manager has no connections and has sent nothing. */
    constructor ()
      ensures Valid() && activeConnections == [] && outbox == []
    {
      activeConnections := [];
      outbox := [];
    }

    /** `broadcast`: sends the message once to each active connection, in list order. */
    method Broadcast(m: Message)
      modifies this
      ensures activeConnections == old(activeConnections)
      ensures outbox == old(outbox) + Deliveries(activeConnections, m)
    {
      for i := 0 to |activeConnections|
        invariant activeConnections == old(activeConnections)
        invariant outbox == old(outbox) + Deliveries(activeConnections[..i], m)
      {
        assert activeConnections[..i + 1][..i] == activeConnections[..i];
        outbox := outbox + [Delivery(activeConnections[i], m)];
      }
      assert activeConnections[..|activeConnections|] == activeConnections;
    }

    /** `greet`: the server announces the client to everyone listed. */
    method Greet(connection: Connection, now: string)
      modifies this
      ensures activeConnections == old(activeConnections)
      ensures outbox == old(outbox) + Deliveries(activeConnections, Message(SERVER, GreetText(connection.clientId), now))
    {
      Broadcast(Message(SERVER, GreetText(connection.clientId), now));
    }

    /** `bye`: the server announces the client's departure to everyone listed. */
    method Bye(connection: Connection, now: string)
      modifies this
      ensures activeConnections == old(activeConnections)
      ensures outbox == old(outbox) + Deliveries(activeConnections, Message(SERVER, ByeText(connection.clientId), now))
    {
      Broadcast(Message(SERVER, ByeText(connection.clientId), now));
    }

    /**
     * `connect`: the greeting goes out before the newcomer is listed, so it reaches only the
     * connections already there; the newcomer ends last in the list.
     */
    method Connect(socket: nat, clientId: string, now: string) returns (connection: Connection)
      requires Valid()
      modifies this
      ensures Valid() && fresh(connection) && connection.clientId == clientId
      ensures activeConnections == old(activeConnections) + [connection]
      ensures outbox == old(outbox) + Deliveries(old(activeConnections), Message(SERVER, GreetText(clientId), now))
      ensures forall d :: d in outbox[|old(outbox)|..] ==> d.to != connection
    {
      connection := new Connection(socket, clientId);
      Greet(connection, now);
      activeConnections := activeConnections + [connection];
      forall d | d in outbox[|old(outbox)|..]
        ensures d.to != connection
      {
        assert d.to in old(activeConnections);
      }
    }

    /**
     * `disconnect`: the connection is unlisted before the farewell goes out, so the departing
     * client does not receive it; an unlisted connection is refused by `list.remove`.
     */
    method Disconnect(connection: Connection, now: string) returns (r: Result<(), ChatError>)
      requires Valid()
      modifies this
      ensures Valid()
      ensures r.Err? <==> connection !in old(activeConnections)
      ensures r.Err? ==> r.error == ValueError(NOT_IN_LIST) && activeConnections == old(activeConnections) && outbox == old(outbox)
      ensures r.Ok? ==> (activeConnections == RemoveFirst(old(activeConnections), connection)
        && connection !in activeConnections
        && outbox == old(outbox) + Deliveries(activeConnections, Message(SERVER, ByeText(connection.clientId), now)))
    {
      if connection !in activeConnections {
        return Err(ValueError(NOT_IN_LIST));
      }
      RemoveFirstDistinct(activeConnections, connection);
      activeConnections := RemoveFirst(activeConnections, connection);
      Bye(connection, now);
      return Ok(());
    }

    /** `manage`: one message received from a client is relayed to everyone listed, the sender included. */
    method Manage(connection: Connection, received: Message)
      modifies this
      ensures activeConnections == old(activeConnections)
      ensures outbox == old(outbox) + Deliveries(activeConnections, received)
    {
      Broadcast(received);
    }
  }
}
