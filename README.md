# Facepunch Steamworks network driver: a verified model

This project models the bridge logic of the Flax Engine network driver
`FacepunchNetworkDriver`. The driver carries engine traffic over Steam relay
sockets through the Facepunch Steamworks library. The model covers:

- **The connection registry** `ConnectedClients`, a map from connection id to
  `Client { Id, SocketConnection }`. The socket manager's callbacks fill and
  empty it (module `Registry`).
- **The event slot**, three fields written by `OnNetworkEvent` and read and
  reset by `PopEvent` (module `EventSlots` as values, and
  `FacepunchNetworkDriver` as a class). It is a single slot, not a queue:
  - the last writer's type and id win;
  - a payload is replaced only by a non-null, non-empty one;
  - `PopEvent` always succeeds.
- **The channel-to-send-type mapping and the send routing** (module `Routing`):
  - the client send goes to its one connection;
  - the single-target host send goes to the first live connection with the id;
  - the multi-target host send goes to every live connection whose id is a
    target, in live order.
- **The targeted disconnect.** It flushes and then closes the registered
  connection. If the id is not registered, it falls back to a scan of the live
  connections.
- **The receive callbacks** of `SteamNetworkSocketManager` (host side) and
  `SteamNetworkConnectionManager` (client side). Each copies the incoming bytes
  into a fresh array and announces the copy to the driver.

The Steam library is represented in two ways:
- each socket manager keeps a sequence of live connections (`Connected`);
- every request the driver makes through a connection (Send, Flush, Close,
  Accept) is appended to a ghost log (`SteamNetworking.log`).

C# `NullReferenceException`s are modelled as an `Outcome` of `NullReference`.
The contracts say what state was already changed when the exception is
raised. Two such paths come from the source as written:
- **Null payload.** The Connected and Disconnected announcements pass a null
  payload. `OnNetworkEvent` reads its length after writing the type and the id.
- **Null `Driver`.** The client-side manager reads `Driver.TargetSteamId`, but
  nothing assigns `Driver`.

Each of the two manager classes is defined twice: once in its own file and
once in `FacepunchNetworkDriver.cs`. The standalone handlers are modelled.
The driver file's variants are modelled next to them:
- `SocketManager.OnConnecting`, which accepts every incoming connection;
- `ConnectionManager.OnMessageWithServerId`, which announces messages under the
  engine's server client id, passed in as a parameter.

Some behaviours of the code may surprise a caller of the engine's driver
interface. The model states them as the code has them:
- **Events.** There is one event slot, not a queue. An event that is not
  popped before the next one arrives is overwritten. `PopEvent` returns true
  even when no event is pending, and then reports an `Undefined` event.
- **Listen failure.** A failed `Listen` does not keep an earlier socket
  manager. It overwrites the socket-manager field with null.
- **Unwired sends.** The client send dereferences a missing connection
  manager, and the host sends dereference a missing socket manager.
- **Send targets.** The host sends scan the live connections, not the
  registry.

`NetworkManager.IsServer`, `NetworkManager.ServerClientId`, whether the library
created a socket, and the relay connection it opened are parameters of the
operations that read them.

## Model

| member | source | states |
|---|---|---|
| SteamTypes.TruncateToU32 | Source/FacepunchSteamworks/FacepunchNetworkDriver.cs:227 | the unchecked `(uint)` cast keeps values below 2^32 and otherwise differs from its input by a multiple of 2^32 |
| Routing.ConvertToSendType | Source/FacepunchSteamworks/FacepunchNetworkDriver.cs:305-323 | total; the result is reliable exactly when the channel is `Reliable` or `ReliableOrdered`, and unreliable for every other value, declared or not |
| Routing.OrderingIsNotDistinguished | Source/FacepunchSteamworks/FacepunchNetworkDriver.cs:310-319 | the ordered kinds map like their unordered counterparts, and every undeclared value maps to unreliable |
| Routing.FirstMatch | Source/FacepunchSteamworks/FacepunchNetworkDriver.cs:271-283 | the single-target scan reaches exactly one connection, the target's, when it is live, and none otherwise |
| Routing.MatchingTargets | Source/FacepunchSteamworks/FacepunchNetworkDriver.cs:291-302 | the multi-target scan reaches at most as many connections as are live |
| Routing.MatchingTargetsMembers | Source/FacepunchSteamworks/FacepunchNetworkDriver.cs:291-293 | a connection is reached exactly when it is live and its id is among the targets |
| Routing.MatchingTargetsEmpty | Source/FacepunchSteamworks/FacepunchNetworkDriver.cs:291-293 | nothing is reached exactly when no live id is a target |
| Routing.MatchIndices | Source/FacepunchSteamworks/FacepunchNetworkDriver.cs:291-293 | the live positions whose id is a target, strictly increasing and in bounds; a position is listed exactly when its id is a target |
| Routing.MatchingTargetsPositions | Source/FacepunchSteamworks/FacepunchNetworkDriver.cs:291-302 | the k-th connection reached is the live connection at the k-th matching position, so matches are reached once each and in live order |
| Routing.MatchingTargetsMultiplicity | Source/FacepunchSteamworks/FacepunchNetworkDriver.cs:291-302 | a connection is reached as often as it is live when its id is a target, and never otherwise |
| Routing.MatchingTargetsDistinct | Source/FacepunchSteamworks/FacepunchNetworkDriver.cs:291-302 | with pairwise distinct live connections, no connection is reached twice |
| Routing.SingleTargetIsFirstOfMulti | Source/FacepunchSteamworks/FacepunchNetworkDriver.cs:271-303 | the single-target send reaches the first connection the multi-target send reaches for that one target |
| Routing.SendsToAt | Source/FacepunchSteamworks/FacepunchNetworkDriver.cs:295-300 | one send request per reached connection, the k-th to the k-th, with the same payload and send type |
| Routing.FlushThenCloseAt | Source/FacepunchSteamworks/FacepunchNetworkDriver.cs:213-221 | requests 2k and 2k+1 are the Flush and the Close of the k-th matched connection, and there are no others |
| Routing.MatchingTargetsSnoc | Source/FacepunchSteamworks/FacepunchNetworkDriver.cs:291-293 | one more live connection adds itself to the reached connections exactly when its id is a target |
| Routing.SendsToStep | Source/FacepunchSteamworks/FacepunchNetworkDriver.cs:291-302 | one more iteration of the multi-target loop appends exactly the send to that connection when its id is a target |
| Routing.FlushThenCloseStep | Source/FacepunchSteamworks/FacepunchNetworkDriver.cs:213-221 | one more iteration of the disconnect scan appends exactly Flush and Close of that connection when its id matches |
| Routing.BroadcastToIntersection | Source/FacepunchSteamworks/FacepunchNetworkDriver.cs:291-302 | with live connections 1, 2, 3 and targets 2, 4 only connection 2 is reached |
| Registry.Register | Source/FacepunchSteamworks/SteamNetworkSocketManager.cs:23-29 | the keys grow by the connection's id, existing records are kept, and a new id gets the record of the peer and the connection |
| Registry.Unregister | Source/FacepunchSteamworks/SteamNetworkSocketManager.cs:42 | the id is absent afterwards and every other entry is unchanged |
| Registry.RegisterIdempotent | Source/FacepunchSteamworks/SteamNetworkSocketManager.cs:23 | registering the same connection again, under any peer id, changes nothing |
| Registry.UpdatesKeepKeyed | Source/FacepunchSteamworks/SteamNetworkSocketManager.cs:23-42 | registration and removal keep every record filed under its own connection's id |
| Registry.UnregisterIdempotent | Source/FacepunchSteamworks/FacepunchNetworkDriver.cs:219 | removal is idempotent, and removing an unregistered id leaves the registry as it was |
| Registry.DisconnectAddressesOnlyTarget | Source/FacepunchSteamworks/FacepunchNetworkDriver.cs:202-223 | in a keyed registry every request of a targeted disconnect is to the target connection, in Flush-then-Close pairs |
| Registry.DisconnectRegisteredOnce | Source/FacepunchSteamworks/FacepunchNetworkDriver.cs:204-210 | a registered id gets exactly one Flush and then one Close, whatever the live connections are |
| Registry.DisconnectUnknownIsNoOp | Source/FacepunchSteamworks/FacepunchNetworkDriver.cs:202-223 | a targeted disconnect makes no request exactly when the id is neither registered nor live |
| EventSlots.LastWriterWins | Source/FacepunchSteamworks/FacepunchNetworkDriver.cs:169-172 | after a run of announcements the slot holds the type and the id of the last one |
| EventSlots.PayloadUntouchedWithoutCarrier | Source/FacepunchSteamworks/FacepunchNetworkDriver.cs:173-176 | a run of announcements with no non-empty payload leaves the earlier payload in place |
| EventSlots.PayloadIsLastNonEmpty | Source/FacepunchSteamworks/FacepunchNetworkDriver.cs:173-176 | after a run of announcements the payload is that of the last one that carried a non-empty payload |
| EventSlots.EmptyPayloadKeepsEarlier | Source/FacepunchSteamworks/FacepunchNetworkDriver.cs:173-176 | an announcement with a null or empty payload keeps the earlier payload |
| EventSlots.SlotIsNotAQueue | Source/FacepunchSteamworks/FacepunchNetworkDriver.cs:169-246 | of two messages announced before a pop only the second is reported, and the pop after it reports nothing |
| EventSlots.MessageIsReportedWithItsLength | Source/FacepunchSteamworks/FacepunchNetworkDriver.cs:229-234 | a message with a non-empty payload is reported by its sender with the payload's length |
| EventSlots.EmptyMessageReportsStalePayload | Source/FacepunchSteamworks/FacepunchNetworkDriver.cs:173-176 | an empty message after an unpopped one is reported with the earlier message's length; right after a reset it carries no message |
| EventSlots.ConnectionEventsAttachNoMessage | Source/FacepunchSteamworks/FacepunchNetworkDriver.cs:229-238 | only Message events attach a message, whatever payload the slot still holds |
| EventSlots.SenderIsLow32Bits | Source/FacepunchSteamworks/FacepunchNetworkDriver.cs:227 | the reported sender is the event id modulo 2^32, equal to the id exactly when the id fits in 32 bits |
| EventSlots.SteamIdIsTruncated | Source/FacepunchSteamworks/FacepunchNetworkDriver.cs:227 | a 64-bit Steam id used as an event id is reported as a different 32-bit sender |
| FacepunchSteamworks.CopyPayload | Source/FacepunchSteamworks/SteamNetworkSocketManager.cs:49-57 | a newly allocated array of length `size` whose contents are the first `size` source bytes |
| FacepunchSteamworks.SocketManager.OnConnecting | Source/FacepunchSteamworks/FacepunchNetworkDriver.cs:40-44 | every incoming connection is accepted, with exactly one Accept request |
| FacepunchSteamworks.SocketManager.OnConnected | Source/FacepunchSteamworks/SteamNetworkSocketManager.cs:16-34 | without a driver nothing changes; otherwise the connection is registered and, only when its id was new, one Connected event with a null payload is announced, which raises; the payload reference, the other driver state and a keyed registry are kept |
| FacepunchSteamworks.SocketManager.OnDisconnected | Source/FacepunchSteamworks/SteamNetworkSocketManager.cs:36-45 | without a driver nothing changes; otherwise the id is removed and a Disconnected event is announced even for an unregistered id; the payload reference and a keyed registry are kept |
| FacepunchSteamworks.SocketManager.OnMessage | Source/FacepunchSteamworks/SteamNetworkSocketManager.cs:47-60 | one Message event under the connection's id with a fresh copy of the `size` bytes, which replaces the stored payload array only when non-empty; the registry and the wiring are untouched |
| FacepunchSteamworks.ConnectionManager.OnMessage | Source/FacepunchSteamworks/SteamNetworkConnectionManager.cs:16-29 | with a subscriber and a driver, one Message event under `TargetSteamId` with a fresh copy of the bytes; with a subscriber and no driver, a null dereference, no event and the same payload array; no other driver state changes |
| FacepunchSteamworks.ConnectionManager.OnMessageWithServerId | Source/FacepunchSteamworks/FacepunchNetworkDriver.cs:71-76 | one Message event under the server client id with a fresh copy of the bytes, which replaces the stored payload array only when non-empty |
| FacepunchSteamworks.FacepunchNetworkDriver.constructor | Source/FacepunchSteamworks/FacepunchNetworkDriver.cs:165-167 | the slot starts out as Undefined, 0 and null, and the empty registry is keyed |
| FacepunchSteamworks.FacepunchNetworkDriver.Initialize | Source/FacepunchSteamworks/FacepunchNetworkDriver.cs:104-119 | the registry is a fresh empty map, hence keyed, the local Steam id is recorded, and the result is false |
| FacepunchSteamworks.FacepunchNetworkDriver.Listen | Source/FacepunchSteamworks/FacepunchNetworkDriver.cs:144-163 | fails exactly when no socket manager is created, and then nulls the socket-manager field and wires nothing; otherwise wires a fresh socket manager and, on a client, a connection manager to the local user |
| FacepunchSteamworks.FacepunchNetworkDriver.Connect | Source/FacepunchSteamworks/FacepunchNetworkDriver.cs:179-185 | a fresh connection manager to `TargetSteamId` subscribed to this driver, with its `Driver` left null; returns true |
| FacepunchSteamworks.FacepunchNetworkDriver.ConnectWithDriver | Source/FacepunchSteamworks/FacepunchNetworkDriver.cs:179-185 | as `Connect`, with the manager's `Driver` set to this driver |
| FacepunchSteamworks.FacepunchNetworkDriver.OnNetworkEvent | Source/FacepunchSteamworks/FacepunchNetworkDriver.cs:169-177 | the type and id are overwritten; the payload is replaced only by a non-empty array; a null array raises after the type and id are written |
| FacepunchSteamworks.FacepunchNetworkDriver.PopEvent | Source/FacepunchSteamworks/FacepunchNetworkDriver.cs:225-246 | always true; reports the slot's type, its id cut to 32 bits and the payload length for a message with data; the slot is reset afterwards |
| FacepunchSteamworks.FacepunchNetworkDriver.Disconnect | Source/FacepunchSteamworks/FacepunchNetworkDriver.cs:202-223 | the id is absent afterwards; the requests are Flush then Close of the registered connection, or else of each live match; with no socket manager the fallback raises and makes no request; a keyed registry stays keyed, every request addresses the target, and a registered target gets exactly one Flush and one Close |
| FacepunchSteamworks.FacepunchNetworkDriver.CloseLiveMatches | Source/FacepunchSteamworks/FacepunchNetworkDriver.cs:211-222 | the fallback scan makes Flush then Close of each live match in live order, and its removals leave the registry unchanged |
| FacepunchSteamworks.FacepunchNetworkDriver.CloseIfMatch | Source/FacepunchSteamworks/FacepunchNetworkDriver.cs:215-220 | one iteration of the scan: Flush then Close exactly when the id matches, and a removal that finds nothing |
| FacepunchSteamworks.FacepunchNetworkDriver.SendMessage | Source/FacepunchSteamworks/FacepunchNetworkDriver.cs:248-259 | nothing on the server; on a client one send to the manager's connection with the mapped send type, or a null dereference without a manager |
| FacepunchSteamworks.FacepunchNetworkDriver.SendMessageTo | Source/FacepunchSteamworks/FacepunchNetworkDriver.cs:261-284 | nothing on a client; on the server one send to the first live connection with the target id, none if it is not live |
| FacepunchSteamworks.FacepunchNetworkDriver.SendMessageToMany | Source/FacepunchSteamworks/FacepunchNetworkDriver.cs:286-303 | nothing on a client; on the server one send to each live connection whose id is a target, in live order |
| Scenarios.HostLifecycle | Source/FacepunchSteamworks/SteamNetworkSocketManager.cs:16-45 | a connection is registered and reported once despite the raised announcements, a repeat `OnConnected` changes nothing, its loss is reported, and a later targeted disconnect makes no request |
| Scenarios.PayloadSurvivesBufferReuse | Source/FacepunchSteamworks/SteamNetworkSocketManager.cs:47-60 | the reported message keeps the received bytes after the source buffer is overwritten |
| Scenarios.ConnectThenMessageIsLost | Source/FacepunchSteamworks/SteamNetworkConnectionManager.cs:28 | after `Connect`, a client message raises and the engine pops an empty event |
| Scenarios.WiredConnectThenMessageArrives | Source/FacepunchSteamworks/SteamNetworkConnectionManager.cs:28 | with `Driver` wired, the message is reported under the server's Steam id cut to 32 bits |
| Scenarios.ServerIdMessageArrives | Source/FacepunchSteamworks/FacepunchNetworkDriver.cs:75 | the driver file's client manager reports the message under the server client id |

## Left out

- The Steam library itself is not modelled, because it is foreign code: socket and relay creation, `SteamNetworkingUtils`, `SteamClient`, and the effect of Send, Flush, Close and Accept. Each request is only recorded in the ghost log.
- `OnUpdate`, the `Scripting.Update` subscription, `Dispose` and the argument-less `Disconnect()` are left out. They are engine callback plumbing and library object teardown. The model does not follow an exception out of the callback that raised it. For example, `OnUpdate`'s catch wraps only the receive calls that deliver the message callbacks, while the connection-status callbacks are dispatched by the library. The model shows each such exception only as the `NullReference` outcome of the callback.
- `GetStats` is left out: both overloads only throw `NotImplementedException`.
- `DriverName` and all logging are left out: they contain no logic.
- `base.OnConnected` and `base.OnDisconnected` are left out: they are library code. In the model, `Connected` is whatever the library made it.
- `OnConnectionChanged` is left out: its body is empty.
- Initialize's buffer-size setting, relay initialization and update hook are left out. The engine peer and config it stores are only used by `CreateMessage` and `SendBufferSize`.
- The `NetworkMessage` that `PopEvent` attaches is modelled only by its length, because its buffer is set from `Unsafe.AsPointer(ref _eventData)`. That is the address of the reference field, not of the bytes. `_networkHost.CreateMessage()` is left out.
- The native copies (`Marshal.Copy`, `Buffer.MemoryCopy`) are modelled as element-wise copies from a Dafny array, so a bad native pointer is out of scope.
- The registry before `Initialize` is null in the source and an empty map in the model, so the null dereferences on that path are not modelled.
- The case where `ConnectRelay` returns null is not modelled in `Listen` and `Connect`: the model always creates the connection manager.
- A null `targets` array in the multi-target send is not modelled: targets is a sequence of connection ids.
- FacepunchSteamworks.FacepunchNetworkDriver.Listen: NetworkManager.IsServer is a parameter, and the library's success is a boolean parameter.
- Scenarios.HostLifecycle: the requests of its last disconnect are stated through a ghost out-parameter, because the library log is ghost.

## Findings

| source | as written | input that shows it | evidently intended | confidence | as-written member | corrected member |
|---|---|---|---|---|---|---|
| Source/FacepunchSteamworks/FacepunchNetworkDriver.cs:179-185 | `Connect` (and `Listen` on a client) subscribes to the new connection manager, but never sets its `Driver`. The standalone manager's `OnMessage` reads `Driver.TargetSteamId` (Source/FacepunchSteamworks/SteamNetworkConnectionManager.cs:28), so every client message raises before it is announced. | `Connect`, then any incoming message on the client connection | the manager's `Driver` is set to the connecting driver, so that messages are announced | high, not executed | Scenarios.ConnectThenMessageIsLost | Scenarios.WiredConnectThenMessageArrives |
