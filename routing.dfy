/**
  Outbound routing of the driver: which Steam send type a channel maps to,
  which live connections a host send reaches, and which Flush/Close requests
  a targeted disconnect issues. All are pure functions of the live-connection
  sequence (the socket manager's `Connected`) and the request's arguments.
*/
module Routing {
  import opened SteamTypes

  /** `ConvertToSendType`: total; only the two reliable channel kinds map to
      a reliable send, every other value (declared or not) to an unreliable
      one. */
  function ConvertToSendType(channel: NetworkChannelType): (r: SendType)
    ensures r == SendReliable <==>
              channel == NetworkChannelType.Reliable || channel == NetworkChannelType.ReliableOrdered
  {
    match channel
    case None => SendUnreliable
    case Unreliable => SendUnreliable
    case UnreliableOrdered => SendUnreliable
    case Reliable => SendReliable
    case ReliableOrdered => SendReliable
    case Undeclared(_) => SendUnreliable
  }

  /** The ordered channel kinds are not told apart from their unordered
      counterparts. */
  lemma OrderingIsNotDistinguished()
    ensures ConvertToSendType(NetworkChannelType.UnreliableOrdered) == ConvertToSendType(NetworkChannelType.Unreliable)
    ensures ConvertToSendType(NetworkChannelType.ReliableOrdered) == ConvertToSendType(NetworkChannelType.Reliable)
    ensures forall code :: ConvertToSendType(NetworkChannelType.Undeclared(code)) == SendUnreliable
  {
  }

  /** The connections the single-target host send reaches: a scan of
      `connected` that stops at the first connection with the target id. */
  function FirstMatch(connected: seq<Connection>, target: U32): (r: seq<Connection>)
    ensures r == if Connection(target) in connected then [Connection(target)] else []
  {
    if connected == [] then []
    else if connected[0].id == target then [connected[0]]
    else FirstMatch(connected[1..], target)
  }

  /** The connections the multi-target host send reaches: every element of
      `connected` whose id occurs in `targets`, kept in `connected` order. */
  function MatchingTargets(connected: seq<Connection>, targets: seq<U32>): (r: seq<Connection>)
    ensures |r| <= |connected|
  {
    if connected == [] then []
    else
      var last := connected[|connected| - 1];
      MatchingTargets(connected[..|connected| - 1], targets) + (if last.id in targets then [last] else [])
  }

  /** The multi-target send reaches a connection exactly when it is live and
      its id is a target. */
  lemma {:induction false} MatchingTargetsMembers(connected: seq<Connection>, targets: seq<U32>)
    ensures forall c :: c in MatchingTargets(connected, targets) <==> c in connected && c.id in targets
  {
    if connected != [] {
      var n := |connected| - 1;
      MatchingTargetsMembers(connected[..n], targets);
      assert connected == connected[..n] + [connected[n]];
    }
  }

  /** The multi-target send reaches nobody exactly when no live id is a target. */
  lemma MatchingTargetsEmpty(connected: seq<Connection>, targets: seq<U32>)
    ensures MatchingTargets(connected, targets) == [] <==>
            forall i :: 0 <= i < |connected| ==> connected[i].id !in targets
  {
    MatchingTargetsMembers(connected, targets);
    var r := MatchingTargets(connected, targets);
    if r != [] {
      assert r[0] in r;
    }
  }

  /** The positions of `connected` whose id occurs in `targets`, in increasing order. */
  ghost function MatchIndices(connected: seq<Connection>, targets: seq<U32>): (ix: seq<nat>)
    ensures forall k :: 0 <= k < |ix| ==> ix[k] < |connected|
    ensures forall k, l :: 0 <= k < l < |ix| ==> ix[k] < ix[l]
    ensures forall i :: 0 <= i < |connected| ==> (connected[i].id in targets <==> i in ix)
  {
    if connected == [] then []
    else
      var n := |connected| - 1;
      var front := connected[..n];
      assert forall i :: 0 <= i < n ==> front[i] == connected[i];
      MatchIndices(front, targets) + (if connected[n].id in targets then [n] else [])
  }

  /** The multi-target send reaches exactly the positions of `connected`
      whose id is a target (`MatchIndices`), each once and in `connected`
      order. */
  lemma {:induction false} MatchingTargetsPositions(connected: seq<Connection>, targets: seq<U32>)
    ensures var r, ix := MatchingTargets(connected, targets), MatchIndices(connected, targets);
      |ix| == |r| && forall k :: 0 <= k < |ix| ==> r[k] == connected[ix[k]]
  {
    if connected != [] {
      var n := |connected| - 1;
      var front := connected[..n];
      MatchingTargetsPositions(front, targets);
      var r0, ix0 := MatchingTargets(front, targets), MatchIndices(front, targets);
      var hit := connected[n].id in targets;
      var r, ix := MatchingTargets(connected, targets), MatchIndices(connected, targets);
      assert r == r0 + (if hit then [connected[n]] else []);
      assert ix == ix0 + (if hit then [n] else []);
      forall k | 0 <= k < |ix| ensures r[k] == connected[ix[k]] {
        if k < |ix0| {
          assert r[k] == r0[k] == front[ix0[k]];
          assert ix[k] == ix0[k] < n;
        }
      }
    }
  }

  /** Each live connection is sent to as many times as it occurs in
      `connected` when its id is a target, and never otherwise. */
  lemma {:induction false} MatchingTargetsMultiplicity(connected: seq<Connection>, targets: seq<U32>, c: Connection)
    ensures multiset(MatchingTargets(connected, targets))[c] ==
            if c.id in targets then multiset(connected)[c] else 0
  {
    if connected != [] {
      var n := |connected| - 1;
      MatchingTargetsMultiplicity(connected[..n], targets, c);
      assert connected == connected[..n] + [connected[n]];
    }
  }

  /** When the live ids are pairwise distinct, no connection is sent to twice. */
  lemma MatchingTargetsDistinct(connected: seq<Connection>, targets: seq<U32>)
    requires forall i, j :: 0 <= i < j < |connected| ==> connected[i] != connected[j]
    ensures var r := MatchingTargets(connected, targets);
      forall k, l :: 0 <= k < l < |r| ==> r[k] != r[l]
  {
    MatchingTargetsPositions(connected, targets);
  }

  /** The single-target send reaches the first connection that the
      multi-target send would reach for the one-element target list. */
  lemma SingleTargetIsFirstOfMulti(connected: seq<Connection>, target: U32)
    ensures var multi := MatchingTargets(connected, [target]);
      FirstMatch(connected, target) == if multi == [] then [] else [multi[0]]
  {
    var multi := MatchingTargets(connected, [target]);
    MatchingTargetsMembers(connected, [target]);
    if multi != [] {
      assert multi[0] in multi;
    }
  }

  /** One `SendMessage(payload, sendType)` request per connection, in order. */
  function SendsTo(conns: seq<Connection>, payload: seq<byte>, sendType: SendType): seq<Action>
  {
    if conns == [] then []
    else SendsTo(conns[..|conns| - 1], payload, sendType) + [Send(conns[|conns| - 1], payload, sendType)]
  }

  /** The k-th request goes to the k-th connection, and there are no others. */
  lemma {:induction false} SendsToAt(conns: seq<Connection>, payload: seq<byte>, sendType: SendType)
    ensures var r := SendsTo(conns, payload, sendType);
      |r| == |conns| && forall k :: 0 <= k < |conns| ==> r[k] == Send(conns[k], payload, sendType)
  {
    if conns != [] {
      var n := |conns| - 1;
      SendsToAt(conns[..n], payload, sendType);
    }
  }

  /** A `Flush` immediately followed by a `Close` for each connection, in order. */
  function FlushThenClose(conns: seq<Connection>): seq<Action>
  {
    if conns == [] then []
    else FlushThenClose(conns[..|conns| - 1]) + [Flush(conns[|conns| - 1]), Close(conns[|conns| - 1])]
  }

  /** Requests 2k and 2k + 1 are the Flush and the Close of the k-th
      connection, and there are no others. */
  lemma {:induction false} FlushThenCloseAt(conns: seq<Connection>)
    ensures var r := FlushThenClose(conns);
      |r| == 2 * |conns| &&
      forall k :: 0 <= k < |conns| ==> r[2 * k] == Flush(conns[k]) && r[2 * k + 1] == Close(conns[k])
  {
    if conns != [] {
      var n := |conns| - 1;
      FlushThenCloseAt(conns[..n]);
    }
  }

  /** Taking one more live connection into account. */
  lemma MatchingTargetsSnoc(connected: seq<Connection>, c: Connection, targets: seq<U32>)
    ensures MatchingTargets(connected + [c], targets) ==
            MatchingTargets(connected, targets) + (if c.id in targets then [c] else [])
  {
    assert (connected + [c])[..|connected|] == connected;
  }

  /** One more step of the multi-target send loop over `connected`. */
  lemma SendsToStep(connected: seq<Connection>, i: nat, targets: seq<U32>, payload: seq<byte>, sendType: SendType)
    requires i < |connected|
    ensures SendsTo(MatchingTargets(connected[..i + 1], targets), payload, sendType) ==
            SendsTo(MatchingTargets(connected[..i], targets), payload, sendType) +
            (if connected[i].id in targets then [Send(connected[i], payload, sendType)] else [])
  {
    var c := connected[i];
    assert connected[..i + 1] == connected[..i] + [c];
    MatchingTargetsSnoc(connected[..i], c, targets);
    var before := MatchingTargets(connected[..i], targets);
    if c.id in targets {
      assert (before + [c])[..|before|] == before;
      assert SendsTo(before + [c], payload, sendType) == SendsTo(before, payload, sendType) + [Send(c, payload, sendType)];
    } else {
      assert before + [] == before;
    }
  }

  /** One more step of the targeted-disconnect fallback loop over `connected`. */
  lemma FlushThenCloseStep(connected: seq<Connection>, i: nat, id: U32)
    requires i < |connected|
    ensures FlushThenClose(MatchingTargets(connected[..i + 1], [id])) ==
            FlushThenClose(MatchingTargets(connected[..i], [id])) +
            (if connected[i].id == id then [Flush(connected[i]), Close(connected[i])] else [])
  {
    var c := connected[i];
    assert connected[..i + 1] == connected[..i] + [c];
    MatchingTargetsSnoc(connected[..i], c, [id]);
    var before := MatchingTargets(connected[..i], [id]);
    if c.id == id {
      assert (before + [c])[..|before|] == before;
      assert FlushThenClose(before + [c]) == FlushThenClose(before) + [Flush(c), Close(c)];
    } else {
      assert before + [] == before;
    }
  }

  /** The send-routing example: with live connections 1, 2, 3 and targets
      2, 4, only connection 2 is sent to. */
  lemma BroadcastToIntersection()
    ensures MatchingTargets([Connection(1), Connection(2), Connection(3)], [2, 4]) == [Connection(2)]
  {
  }
}
