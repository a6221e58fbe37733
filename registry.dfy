/**
  The driver's connection registry, `ConnectedClients`: a dictionary from a
  connection id to the peer's record. The socket-manager callbacks add to it
  and remove from it; the targeted disconnect consults it before falling back
  to the live connections.
*/
module Registry {
  import opened SteamTypes
  import opened Routing

  type ClientMap = map<U64, Client>

  /** Every record is filed under the id of its own connection, which is how
      `OnConnected` files it. */
  predicate Keyed(registry: ClientMap)
  {
    forall k :: k in registry ==> registry[k].socketConnection.id == k
  }

  /** `OnConnected`'s update: a record for a connection whose id is not yet
      registered; an id already present keeps its existing record. */
  function Register(registry: ClientMap, connection: Connection, steamId: U64): (r: ClientMap)
    ensures r.Keys == registry.Keys + {connection.id}
    ensures forall k :: k in registry ==> r[k] == registry[k]
    ensures connection.id !in registry ==> r[connection.id] == Client(steamId, connection)
  {
    if connection.id in registry then registry
    else registry[connection.id := Client(steamId, connection)]
  }

  /** `OnDisconnected`'s and `Disconnect`'s update: unconditional removal. */
  function Unregister(registry: ClientMap, id: U64): (r: ClientMap)
    ensures id !in r
    ensures forall k :: k != id ==> (k in r <==> k in registry)
    ensures forall k :: k in r ==> r[k] == registry[k]
  {
    registry - {id}
  }

  /** A second registration of the same connection changes nothing. */
  lemma RegisterIdempotent(registry: ClientMap, connection: Connection, steamId: U64, steamId': U64)
    ensures Register(Register(registry, connection, steamId), connection, steamId') ==
            Register(registry, connection, steamId)
  {
  }

  /** Registration and removal preserve `Keyed`. */
  lemma UpdatesKeepKeyed(registry: ClientMap, connection: Connection, steamId: U64, id: U64)
    requires Keyed(registry)
    ensures Keyed(Register(registry, connection, steamId))
    ensures Keyed(Unregister(registry, id))
  {
  }

  /** A removed id is absent however often it is removed, and removing an
      id that was never registered is harmless. */
  lemma UnregisterIdempotent(registry: ClientMap, id: U64)
    ensures Unregister(Unregister(registry, id), id) == Unregister(registry, id)
    ensures id !in registry ==> Unregister(registry, id) == registry
  {
  }

  /** The requests `Disconnect(connection)` makes: Flush then Close of the
      registered connection, or else of every live connection with that id. */
  function DisconnectRequests(registry: ClientMap, connected: seq<Connection>, id: U32): seq<Action>
  {
    if id in registry then
      [Flush(registry[id].socketConnection), Close(registry[id].socketConnection)]
    else
      FlushThenClose(MatchingTargets(connected, [id]))
  }

  /** In a keyed registry, a targeted disconnect addresses only the target
      connection, and each Flush is followed directly by the Close of the
      same connection. */
  lemma DisconnectAddressesOnlyTarget(registry: ClientMap, connected: seq<Connection>, id: U32)
    requires Keyed(registry)
    ensures var rs := DisconnectRequests(registry, connected, id);
      && |rs| % 2 == 0
      && (forall k :: 0 <= k < |rs| ==> rs[k].conn == Connection(id))
      && (forall k :: 0 <= k < |rs| / 2 ==> rs[2 * k] == Flush(Connection(id)) && rs[2 * k + 1] == Close(Connection(id)))
  {
    var rs := DisconnectRequests(registry, connected, id);
    if id !in registry {
      var hits := MatchingTargets(connected, [id]);
      MatchingTargetsMembers(connected, [id]);
      assert forall j :: 0 <= j < |hits| ==> hits[j] == Connection(id) by {
        forall j | 0 <= j < |hits| ensures hits[j] == Connection(id) {
          assert hits[j] in hits;
        }
      }
      assert rs == FlushThenClose(hits);
      FlushThenCloseAt(hits);
      forall k | 0 <= k < |rs| ensures rs[k].conn == Connection(id) {
        var j := k / 2;
        assert j < |hits| && (k == 2 * j || k == 2 * j + 1);
        assert rs[2 * j] == Flush(hits[j]) && rs[2 * j + 1] == Close(hits[j]);
      }
    }
  }

  /** A registered id is disconnected exactly once, whatever the live
      connections are. */
  lemma DisconnectRegisteredOnce(registry: ClientMap, connected: seq<Connection>, id: U32)
    requires Keyed(registry) && id in registry
    ensures DisconnectRequests(registry, connected, id) == [Flush(Connection(id)), Close(Connection(id))]
  {
  }

  /** A target that is neither registered nor live is a silent no-op, and
      only then are no requests made. */
  lemma DisconnectUnknownIsNoOp(registry: ClientMap, connected: seq<Connection>, id: U32)
    ensures DisconnectRequests(registry, connected, id) == [] <==>
            id !in registry && Connection(id) !in connected
  {
    MatchingTargetsMembers(connected, [id]);
    if id !in registry && Connection(id) in connected {
      var hits := MatchingTargets(connected, [id]);
      assert Connection(id) in hits;
      FlushThenCloseAt(hits);
      assert |DisconnectRequests(registry, connected, id)| == 2 * |hits| > 0;
    } else if id !in registry {
      MatchingTargetsEmpty(connected, [id]);
      assert forall i :: 0 <= i < |connected| ==> connected[i] != Connection(id);
    }
  }
}
