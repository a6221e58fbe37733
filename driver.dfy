/**
  The Facepunch network driver and its two Steam callback objects, over an
  abstract Steam networking library.

  The library appears in two ways. Each socket manager keeps its sequence of
  live connections (`Connected`). Every request the driver makes through a
  connection is appended to a ghost log (`SteamNetworking.log`).
*/
module FacepunchSteamworks {
  import opened SteamTypes
  import opened Routing
  import opened Registry
  import opened EventSlots

  /** The Steam networking library, seen only through the requests made of it. */
  class SteamNetworking {
    ghost var log: seq<Action>

    constructor ()
      ensures log == []
    {
      log := [];
    }

    /** `Connection.SendMessage(data, length, sendType)`. */
    method SendMessage(conn: Connection, payload: seq<byte>, sendType: SendType)
      modifies this
      ensures log == old(log) + [Action.Send(conn, payload, sendType)]
    {
      log := log + [Action.Send(conn, payload, sendType)];
    }

    /** `Connection.Flush()`. */
    method Flush(conn: Connection)
      modifies this
      ensures log == old(log) + [Action.Flush(conn)]
    {
      log := log + [Action.Flush(conn)];
    }

    /** `Connection.Close()`. */
    method Close(conn: Connection)
      modifies this
      ensures log == old(log) + [Action.Close(conn)]
    {
      log := log + [Action.Close(conn)];
    }

    /** `Connection.Accept()`. */
    method Accept(conn: Connection)
      modifies this
      ensures log == old(log) + [Action.Accept(conn)]
    {
      log := log + [Action.Accept(conn)];
    }
  }

  /** The contents of a byte array, or None for a null reference. */
  function Payload(data: array?<byte>): Option<seq<byte>>
    reads data
  {
    if data == null then Option.None else Some(data[..])
  }

  /** `new byte[size]` filled from the library's receive buffer by a memory
      copy: a fresh array holding the first `size` bytes of `data`. */
  method CopyPayload(data: array<byte>, size: int) returns (bytes: array<byte>)
    requires 0 <= size <= data.Length
    ensures fresh(bytes)
    ensures bytes[..] == data[..size]
  {
    bytes := new byte[size];
    var i := 0;
    while i < size
      invariant 0 <= i <= size
      invariant bytes[..i] == data[..i]
    {
      bytes[i] := data[i];
      i := i + 1;
    }
    assert bytes[..] == bytes[..size];
  }

  /** `SteamNetworkSocketManager`: the host side's callbacks. */
  class SocketManager {
    /** `Driver`. */
    var driver: FacepunchNetworkDriver?
    /** The one subscriber of the `NetworkEvent` event, or null if none. */
    var handler: FacepunchNetworkDriver?
    /** The library's `Connected` list; kept by the library, not by these callbacks. */
    var connected: seq<Connection>

    constructor ()
      ensures driver == null && handler == null && connected == []
    {
      driver, handler, connected := null, null, [];
    }

    /** The copy inside the driver's file accepts every incoming connection
        explicitly. */
    method OnConnecting(connection: Connection, net: SteamNetworking)
      modifies net
      ensures net.log == old(net.log) + [Action.Accept(connection)]
    {
      net.Accept(connection);
    }

    /** A new connection: registered and announced once; an id already
        registered changes nothing. The announcement passes a null payload,
        which `OnNetworkEvent` dereferences. */
    method OnConnected(connection: Connection, peer: U64) returns (outcome: Outcome)
      modifies driver, handler
      ensures var added := driver != null && connection.id !in old(driver.connectedClients);
        && (driver != null ==> driver.connectedClients == Register(old(driver.connectedClients), connection, peer))
        && outcome == (if added && handler != null then NullReference else Completed)
        && (handler != null ==>
              handler.Slot() == if added then Absorb(old(handler.Slot()), Incoming(Connected, connection.id, Option.None))
                                else old(handler.Slot()))
      ensures driver != null && driver != handler ==> driver.Slot() == old(driver.Slot())
      ensures handler != null && handler != driver ==> handler.connectedClients == old(handler.connectedClients)
      ensures handler != null ==> handler.eventData == old(handler.eventData)
      ensures driver != null && old(driver.RegistryKeyed()) ==> driver.RegistryKeyed()
      ensures driver != null ==> driver.Wiring() == old(driver.Wiring())
      ensures handler != null ==> handler.Wiring() == old(handler.Wiring())
    {
      outcome := Completed;
      if driver == null {
        return;
      }
      if driver.RegistryKeyed() {
        UpdatesKeepKeyed(driver.connectedClients, connection, peer, connection.id);
      }
      if connection.id !in driver.connectedClients {
        driver.connectedClients := driver.connectedClients[connection.id := Client(peer, connection)];
        if handler != null {
          outcome := handler.OnNetworkEvent(Connected, connection.id, null);
        }
      }
    }

    /** A lost connection: its id is removed whether or not it was
        registered, and a Disconnected event with a null payload follows. */
    method OnDisconnected(connection: Connection) returns (outcome: Outcome)
      modifies driver, handler
      ensures driver != null ==> driver.connectedClients == Unregister(old(driver.connectedClients), connection.id)
      ensures outcome == if driver != null && handler != null then NullReference else Completed
      ensures handler != null ==>
                handler.Slot() == if driver != null then Absorb(old(handler.Slot()), Incoming(Disconnected, connection.id, Option.None))
                                  else old(handler.Slot())
      ensures driver != null && driver != handler ==> driver.Slot() == old(driver.Slot())
      ensures handler != null && handler != driver ==> handler.connectedClients == old(handler.connectedClients)
      ensures handler != null ==> handler.eventData == old(handler.eventData)
      ensures driver != null && old(driver.RegistryKeyed()) ==> driver.RegistryKeyed()
      ensures driver != null ==> driver.Wiring() == old(driver.Wiring())
      ensures handler != null ==> handler.Wiring() == old(handler.Wiring())
    {
      outcome := Completed;
      if driver == null {
        return;
      }
      if driver.RegistryKeyed() {
        UpdatesKeepKeyed(driver.connectedClients, connection, 0, connection.id);
      }
      driver.connectedClients := driver.connectedClients - {connection.id};
      if handler != null {
        outcome := handler.OnNetworkEvent(Disconnected, connection.id, null);
      }
    }

    /** An incoming message: a fresh copy of its `size` bytes is announced
        under the connection's id. The registry is not touched. */
    method OnMessage(connection: Connection, data: array<byte>, size: int) returns (outcome: Outcome)
      requires 0 <= size <= data.Length
      modifies handler
      ensures outcome == Completed
      ensures handler != null ==>
        handler.Slot() == Absorb(old(handler.Slot()), Incoming(Message, connection.id, Some(data[..size])))
      ensures handler != null && size > 0 ==> fresh(handler.eventData)
      ensures handler != null && size == 0 ==> handler.eventData == old(handler.eventData)
      ensures handler != null ==> handler.connectedClients == old(handler.connectedClients)
      ensures handler != null ==> handler.Wiring() == old(handler.Wiring())
    {
      var bytes := CopyPayload(data, size);
      outcome := Completed;
      if handler != null {
        outcome := handler.OnNetworkEvent(Message, connection.id, bytes);
      }
    }
  }

  /** `SteamNetworkConnectionManager`: the client side's callbacks on its
      one connection. */
  class ConnectionManager {
    /** `Connection`: the library's handle of the outgoing connection. */
    var connection: Connection
    /** The Steam id the connection was opened to. */
    ghost var remote: U64
    /** `Driver` (declared only in the standalone file). */
    var driver: FacepunchNetworkDriver?
    /** The one subscriber of the `NetworkEvent` event, or null if none. */
    var handler: FacepunchNetworkDriver?

    constructor (connection: Connection, ghost remote: U64)
      ensures this.connection == connection && this.remote == remote
      ensures driver == null && handler == null
    {
      this.connection := connection;
      this.remote := remote;
      driver, handler := null, null;
    }

    /** The standalone file's handler: a fresh copy of the `size` bytes is
        announced with `Driver.TargetSteamId` as the id. The id is read only
        when there is a subscriber, and reading it through a null `Driver`
        raises, so then no event is announced. */
    method OnMessage(data: array<byte>, size: int) returns (outcome: Outcome)
      requires 0 <= size <= data.Length
      modifies handler
      ensures outcome == if handler != null && driver == null then NullReference else Completed
      ensures handler != null ==>
                handler.Slot() == if driver == null then old(handler.Slot())
                                  else Absorb(old(handler.Slot()), Incoming(Message, old(driver.targetSteamId), Some(data[..size])))
      ensures handler != null && driver != null && size > 0 ==> fresh(handler.eventData)
      ensures handler != null && (driver == null || size == 0) ==> handler.eventData == old(handler.eventData)
      ensures handler != null ==> handler.connectedClients == old(handler.connectedClients)
      ensures handler != null ==> handler.Wiring() == old(handler.Wiring())
    {
      var bytes := CopyPayload(data, size);
      outcome := Completed;
      if handler != null {
        if driver == null {
          outcome := NullReference;
        } else {
          outcome := handler.OnNetworkEvent(Message, driver.targetSteamId, bytes);
        }
      }
    }

    /** The copy inside the driver's file: the same, with the engine's
        server client id as the id. */
    method OnMessageWithServerId(data: array<byte>, size: int, serverClientId: U32) returns (outcome: Outcome)
      requires 0 <= size <= data.Length
      modifies handler
      ensures outcome == Completed
      ensures handler != null ==>
        handler.Slot() == Absorb(old(handler.Slot()), Incoming(Message, serverClientId, Some(data[..size])))
      ensures handler != null && size > 0 ==> fresh(handler.eventData)
      ensures handler != null && size == 0 ==> handler.eventData == old(handler.eventData)
      ensures handler != null ==> handler.connectedClients == old(handler.connectedClients)
      ensures handler != null ==> handler.Wiring() == old(handler.Wiring())
    {
      var bytes := CopyPayload(data, size);
      outcome := Completed;
      if handler != null {
        outcome := handler.OnNetworkEvent(Message, serverClientId, bytes);
      }
    }
  }

  /** `FacepunchNetworkDriver`. */
  class FacepunchNetworkDriver {
    var userSteamId: U64
    var targetSteamId: U64
    /** `ConnectedClients`. */
    var connectedClients: ClientMap
    var socketManager: SocketManager?
    var connectionManager: ConnectionManager?
    /** The event slot: `_networkEventType`, `_eventId`, `_eventData`. */
    var networkEventType: NetworkEventType
    var eventId: U64
    var eventData: array?<byte>

    constructor ()
      ensures userSteamId == 0 && targetSteamId == 0 && connectedClients == map[]
      ensures socketManager == null && connectionManager == null
      ensures eventData == null && Slot() == Reset
      ensures RegistryKeyed()
    {
      userSteamId, targetSteamId, connectedClients := 0, 0, map[];
      socketManager, connectionManager := null, null;
      networkEventType, eventId, eventData := Undefined, 0, null;
    }

    /** The event slot as a value. */
    function Slot(): EventSlot
      reads this, eventData
    {
      EventSlot(networkEventType, eventId, Payload(eventData))
    }

    /** The registry files every record under its own connection's id. */
    predicate RegistryKeyed()
      reads this
    {
      Keyed(connectedClients)
    }

    /** The fields other than the registry and the slot. */
    function Wiring(): (U64, U64, SocketManager?, ConnectionManager?)
      reads this
    {
      (userSteamId, targetSteamId, socketManager, connectionManager)
    }

    /** The live connections the host-side operations scan, or [] when
        there is no socket manager. */
    function LiveConnections(): seq<Connection>
      reads this, socketManager
    {
      if socketManager == null then [] else socketManager.connected
    }

    /** `Initialize`: a fresh, empty registry and the local Steam id;
        returns false. */
    method Initialize(localSteamId: U64) returns (result: bool)
      modifies this`connectedClients, this`userSteamId
      ensures !result
      ensures connectedClients == map[] && userSteamId == localSteamId
      ensures RegistryKeyed()
    {
      connectedClients := map[];
      userSteamId := localSteamId;
      result := false;
    }

    /** `Listen`. `socketCreated` is whether the library returned a socket
        manager; `relay` is the connection it opens to the local user when
        this peer is not the server. On failure the socket-manager field is
        overwritten with null and nothing is wired. */
    method Listen(isServer: bool, socketCreated: bool, relay: Connection) returns (ok: bool)
      modifies this`socketManager, this`connectionManager
      ensures ok == socketCreated
      ensures !socketCreated ==> socketManager == null && connectionManager == old(connectionManager)
      ensures socketCreated ==>
                && socketManager != null && fresh(socketManager)
                && socketManager.driver == this && socketManager.handler == this && socketManager.connected == []
      ensures socketCreated && !isServer ==>
                && connectionManager != null && fresh(connectionManager)
                && connectionManager.connection == relay && connectionManager.remote == userSteamId
                && connectionManager.handler == this && connectionManager.driver == null
      ensures socketCreated && isServer ==> connectionManager == old(connectionManager)
    {
      if !socketCreated {
        socketManager := null;
        return false;
      }
      var sm := new SocketManager();
      sm.driver := this;
      sm.handler := this;
      socketManager := sm;
      if !isServer {
        var cm := new ConnectionManager(relay, userSteamId);
        cm.handler := this;
        connectionManager := cm;
      }
      return true;
    }

    /** `Connect`: opens the relay connection `relay` to `TargetSteamId` and
        subscribes to its events. The manager's `Driver` is left null. */
    method Connect(relay: Connection) returns (ok: bool)
      modifies this`connectionManager
      ensures ok
      ensures connectionManager != null && fresh(connectionManager)
      ensures connectionManager.connection == relay && connectionManager.remote == targetSteamId
      ensures connectionManager.handler == this && connectionManager.driver == null
    {
      var cm := new ConnectionManager(relay, targetSteamId);
      cm.handler := this;
      connectionManager := cm;
      return true;
    }

    /** `Connect` as evidently intended: the same, and the manager's
        `Driver` is this driver, so that its message callback can read
        `TargetSteamId`. */
    method ConnectWithDriver(relay: Connection) returns (ok: bool)
      modifies this`connectionManager
      ensures ok
      ensures connectionManager != null && fresh(connectionManager)
      ensures connectionManager.connection == relay && connectionManager.remote == targetSteamId
      ensures connectionManager.handler == this && connectionManager.driver == this
    {
      var cm := new ConnectionManager(relay, targetSteamId);
      cm.handler := this;
      cm.driver := this;
      connectionManager := cm;
      return true;
    }

    /** `OnNetworkEvent`:the type and the id are overwritten; the payload
        only by a non-empty array. A null array is dereferenced after the
        type and the id are written, which raises. */
    method OnNetworkEvent(eventType: NetworkEventType, id: U64, data: array?<byte>) returns (outcome: Outcome)
      modifies this`networkEventType, this`eventId, this`eventData
      ensures outcome == if data == null then NullReference else Completed
      ensures eventData == if data != null && data.Length > 0 then data else old(eventData)
      ensures Slot() == Absorb(old(Slot()), Incoming(eventType, id, Payload(data)))
    {
      networkEventType := eventType;
      eventId := id;
      if data == null {
        return NullReference;
      }
      if data.Length > 0 {
        eventData := data;
      }
      return Completed;
    }

    /** `PopEvent`: reports the slot and resets it; always true. */
    method PopEvent() returns (event: PoppedEvent, ok: bool)
      modifies this`networkEventType, this`eventId, this`eventData
      ensures ok
      ensures event == Popped(old(Slot()))
      ensures eventData == null && Slot() == Reset
    {
      var length: Option<nat> := Option.None;
      if networkEventType == Message {
        if eventData != null {
          length := Some(eventData.Length);
        }
      }
      event := PoppedEvent(networkEventType, TruncateToU32(eventId), length);
      networkEventType := Undefined;
      eventId := 0;
      eventData := null;
      ok := true;
    }

    /** `Disconnect(connection)`: Flush then Close of the registered
        connection, or else of every live connection with that id; the id
        is absent from the registry afterwards. The fallback reads the
        socket manager, which raises when there is none. */
    method Disconnect(connectionId: U32, net: SteamNetworking) returns (outcome: Outcome)
      modifies this`connectedClients, net
      ensures connectedClients == Unregister(old(connectedClients), connectionId)
      ensures outcome == if connectionId !in old(connectedClients) && socketManager == null then NullReference else Completed
      ensures net.log == old(net.log) +
                if outcome == NullReference then []
                else DisconnectRequests(old(connectedClients), LiveConnections(), connectionId)
      ensures old(RegistryKeyed()) ==> RegistryKeyed()
      ensures old(RegistryKeyed()) ==>
                forall k :: |old(net.log)| <= k < |net.log| ==> net.log[k].conn == Connection(connectionId)
      ensures old(RegistryKeyed()) && connectionId in old(connectedClients) ==>
                net.log == old(net.log) + [Action.Flush(Connection(connectionId)), Action.Close(Connection(connectionId))]
    {
      if RegistryKeyed() {
        UpdatesKeepKeyed(connectedClients, Connection(connectionId), 0, connectionId);
        DisconnectAddressesOnlyTarget(connectedClients, LiveConnections(), connectionId);
      }
      if connectionId in connectedClients {
        var user := connectedClients[connectionId];
        net.Flush(user.socketConnection);
        net.Close(user.socketConnection);
        connectedClients := connectedClients - {connectionId};
        return Completed;
      }
      if socketManager == null {
        return NullReference;
      }
      CloseLiveMatches(socketManager.connected, connectionId, net);
      return Completed;
    }

    /** The fallback scan of `Disconnect(connection)` over the live
        connections `live`, for an id that is not registered: Flush then
        Close of each match, and a removal of its id that finds nothing. */
    method CloseLiveMatches(live: seq<Connection>, connectionId: U32, net: SteamNetworking)
      requires connectionId !in connectedClients
      modifies this`connectedClients, net
      ensures connectedClients == old(connectedClients)
      ensures net.log == old(net.log) + FlushThenClose(MatchingTargets(live, [connectionId]))
    {
      var i := 0;
      ghost var done: seq<Action> := [];
      while i < |live|
        invariant 0 <= i <= |live|
        invariant connectedClients == old(connectedClients)
        invariant done == FlushThenClose(MatchingTargets(live[..i], [connectionId]))
        invariant net.log == old(net.log) + done
      {
        FlushThenCloseStep(live, i, connectionId);
        ghost var extra := if live[i].id == connectionId then [Action.Flush(live[i]), Action.Close(live[i])] else [];
        CloseIfMatch(live[i], connectionId, net);
        done := done + extra;
        i := i + 1;
      }
      assert live[..i] == live;
    }

    /** One iteration of the fallback scan: a live connection with the id
        gets Flush then Close, and the removal of its id finds nothing. */
    method CloseIfMatch(c: Connection, connectionId: U32, net: SteamNetworking)
      requires connectionId !in connectedClients
      modifies this`connectedClients, net
      ensures connectedClients == old(connectedClients)
      ensures net.log == old(net.log) + if c.id == connectionId then [Action.Flush(c), Action.Close(c)] else []
    {
      if c.id == connectionId {
        net.Flush(c);
        net.Close(c);
        UnregisterIdempotent(connectedClients, c.id);
        connectedClients := Unregister(connectedClients, c.id);
      }
    }

    /** The client's `SendMessage(channelType, message)`: one send to the
        connection manager's connection; nothing on the server. */
    method SendMessage(channel: NetworkChannelType, message: seq<byte>, isServer: bool, net: SteamNetworking)
      returns (outcome: Outcome)
      modifies net
      ensures outcome == if !isServer && connectionManager == null then NullReference else Completed
      ensures net.log == old(net.log) +
                if isServer || connectionManager == null then []
                else [Action.Send(connectionManager.connection, message, ConvertToSendType(channel))]
    {
      if isServer {
        return Completed;
      }
      if connectionManager == null {
        return NullReference;
      }
      net.SendMessage(connectionManager.connection, message, ConvertToSendType(channel));
      return Completed;
    }

    /** The host's `SendMessage(channelType, message, target)`: a send to the
        first live connection with the target's id, if any; nothing on a
        client. */
    method SendMessageTo(channel: NetworkChannelType, message: seq<byte>, target: U32, isServer: bool,
                         net: SteamNetworking)
      returns (outcome: Outcome)
      modifies net
      ensures outcome == if isServer && socketManager == null then NullReference else Completed
      ensures net.log == old(net.log) +
                if !isServer || socketManager == null then []
                else SendsTo(FirstMatch(socketManager.connected, target), message, ConvertToSendType(channel))
    {
      if !isServer {
        return Completed;
      }
      if socketManager == null {
        return NullReference;
      }
      var live := socketManager.connected;
      var i := 0;
      while i < |live|
        invariant 0 <= i <= |live|
        invariant Connection(target) !in live[..i]
        invariant net.log == old(net.log)
      {
        if live[i].id == target {
          net.SendMessage(live[i], message, ConvertToSendType(channel));
          assert live[i] == Connection(target) && live[i] in live;
          return Completed;
        }
        assert live[..i + 1] == live[..i] + [live[i]];
        i := i + 1;
      }
      assert live[..i] == live;
      return Completed;
    }

    /** The host's `SendMessage(channelType, message, targets)`: a send to
        every live connection whose id is among the targets, in live order;
        nothing on a client. */
    method SendMessageToMany(channel: NetworkChannelType, message: seq<byte>, targets: seq<U32>, isServer: bool,
                             net: SteamNetworking)
      returns (outcome: Outcome)
      modifies net
      ensures outcome == if isServer && socketManager == null then NullReference else Completed
      ensures net.log == old(net.log) +
                if !isServer || socketManager == null then []
                else SendsTo(MatchingTargets(socketManager.connected, targets), message, ConvertToSendType(channel))
    {
      if !isServer {
        return Completed;
      }
      if socketManager == null {
        return NullReference;
      }
      var sendType := ConvertToSendType(channel);
      var live := socketManager.connected;
      var i := 0;
      while i < |live|
        invariant 0 <= i <= |live|
        invariant net.log == old(net.log) + SendsTo(MatchingTargets(live[..i], targets), message, sendType)
      {
        var c := live[i];
        SendsToStep(live, i, targets, message, sendType);
        if c.id in targets {
          net.SendMessage(c, message, sendType);
        }
        i := i + 1;
      }
      assert live[..i] == live;
      return Completed;
    }
  }
}
