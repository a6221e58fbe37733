/**
  Whole-driver runs over fresh objects: a host's connection lifecycle, the
  payload copy on receipt, and the client message path after `Connect`.
*/
module Scenarios {
  import opened SteamTypes
  import opened Registry
  import opened EventSlots
  import opened FacepunchSteamworks

  /** A host accepts connection 3, sees it again, loses it, and drives a
      targeted disconnect of it afterwards. Each Connected/Disconnected
      announcement dereferences its null payload and raises, but only after
      the registry and the slot's type and id are written, so both events
      are still reported. The second `OnConnected` changes nothing, and the
      disconnect after the loss finds no registered or live connection and
      makes no request. */
  method HostLifecycle() returns (joined: Outcome, rejoined: Outcome, first: PoppedEvent, registered: bool,
                                  second: PoppedEvent, leftOver: bool, ghost requests: seq<Action>)
    ensures joined == NullReference && rejoined == Completed
    ensures first == PoppedEvent(Connected, 3, Option.None) && registered
    ensures second == PoppedEvent(Disconnected, 3, Option.None) && !leftOver
    ensures requests == []
  {
    var net := new SteamNetworking();
    var d := new FacepunchNetworkDriver();
    var _ := d.Initialize(0x0110_0001_0000_0001);
    var ok := d.Listen(true, true, Connection(0));
    var sm := d.socketManager;
    var peer := 0x0110_0001_0000_002A;
    joined := sm.OnConnected(Connection(3), peer);
    rejoined := sm.OnConnected(Connection(3), 7);
    registered := 3 in d.connectedClients && d.connectedClients[3] == Client(peer, Connection(3));
    first, ok := d.PopEvent();
    var out := sm.OnDisconnected(Connection(3));
    leftOver := 3 in d.connectedClients;
    second, ok := d.PopEvent();
    out := d.Disconnect(3, net);
    requests := net.log;
  }

  /** A host receives three bytes of a four-byte buffer on connection 7 and
      the library reuses the buffer before the engine pops the event: the
      reported message is the three original bytes, sent by 7. */
  method PayloadSurvivesBufferReuse() returns (event: PoppedEvent, payload: seq<byte>, buffer: seq<byte>)
    ensures event == PoppedEvent(Message, 7, Some(3))
    ensures payload == [1, 2, 3] && buffer == [9, 9, 9, 9]
  {
    var d := new FacepunchNetworkDriver();
    var ok := d.Listen(true, true, Connection(0));
    var sm := d.socketManager;
    var data := new byte[] [1, 2, 3, 4];
    assert data[..3] == [1, 2, 3];
    var out := sm.OnMessage(Connection(7), data, 3);
    var copy := d.eventData;
    assert copy != data && copy[..] == [1, 2, 3];
    data[0], data[1], data[2], data[3] := 9, 9, 9, 9;
    payload := copy[..];
    buffer := data[..];
    event, ok := d.PopEvent();
  }

  /** After `Connect`, the connection manager's `Driver` is null, so its
      message callback raises before announcing anything: the engine pops
      an empty event. */
  method ConnectThenMessageIsLost() returns (outcome: Outcome, event: PoppedEvent)
    ensures outcome == NullReference
    ensures event == PoppedEvent(Undefined, 0, Option.None)
  {
    var d := new FacepunchNetworkDriver();
    d.targetSteamId := 0x0110_0001_0000_002A;
    var ok := d.Connect(Connection(5));
    var cm := d.connectionManager;
    var data := new byte[2];
    data[0], data[1] := 1, 2;
    outcome := cm.OnMessage(data, 2);
    event, ok := d.PopEvent();
  }

  /** With `Driver` wired, the same message is announced under the
      server's Steam id, which the engine receives cut to its low 32 bits. */
  method WiredConnectThenMessageArrives() returns (outcome: Outcome, event: PoppedEvent)
    ensures outcome == Completed
    ensures event == PoppedEvent(Message, 0x2A, Some(2))
  {
    var d := new FacepunchNetworkDriver();
    d.targetSteamId := 0x0110_0001_0000_002A;
    var ok := d.ConnectWithDriver(Connection(5));
    var cm := d.connectionManager;
    var data := new byte[2];
    data[0], data[1] := 1, 2;
    outcome := cm.OnMessage(data, 2);
    event, ok := d.PopEvent();
  }

  /** The copy of the client manager in the driver's file announces the
      message under the engine's server client id instead. */
  method ServerIdMessageArrives(serverClientId: U32) returns (outcome: Outcome, event: PoppedEvent)
    ensures outcome == Completed
    ensures event == PoppedEvent(Message, serverClientId, Some(2))
  {
    var d := new FacepunchNetworkDriver();
    var ok := d.Connect(Connection(5));
    var cm := d.connectionManager;
    var data := new byte[2];
    data[0], data[1] := 1, 2;
    outcome := cm.OnMessageWithServerId(data, 2, serverClientId);
    event, ok := d.PopEvent();
  }
}
