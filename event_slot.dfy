/**
  The driver's event bridge, as values. It is a single slot made of three
  fields (event type, event id, payload), not a queue. Every
  `OnNetworkEvent` call overwrites the type and the id. The payload is
  replaced only by a non-empty one. `PopEvent` reads the slot and resets it.
*/
module EventSlots {
  import opened SteamTypes

  /** `_networkEventType`, `_eventId` and `_eventData` (None is null). */
  datatype EventSlot = EventSlot(eventType: NetworkEventType, id: U64, data: Option<seq<byte>>)

  /** The slot's initial value and its value after every `PopEvent`. */
  const Reset: EventSlot := EventSlot(Undefined, 0, Option.None)

  /** One `OnNetworkEvent(eventType, id, data)` call; None is a null array. */
  datatype Incoming = Incoming(eventType: NetworkEventType, id: U64, data: Option<seq<byte>>)

  /** A payload that replaces the slot's: non-null and non-empty. */
  predicate Carries(e: Incoming)
  {
    e.data.Some? && |e.data.value| > 0
  }

  /** The slot after one `OnNetworkEvent` call. */
  function Absorb(s: EventSlot, e: Incoming): EventSlot
  {
    EventSlot(e.eventType, e.id, if Carries(e) then e.data else s.data)
  }

  /** The slot after a run of `OnNetworkEvent` calls with no `PopEvent` between. */
  function AbsorbAll(s: EventSlot, es: seq<Incoming>): EventSlot
  {
    if es == [] then s else Absorb(AbsorbAll(s, es[..|es| - 1]), es[|es| - 1])
  }

  /** What `PopEvent` writes into the engine's event: the type, the sender
      connection id (`(uint)_eventId`) and, when a message is attached, its
      length. None means no message is attached. */
  datatype PoppedEvent = PoppedEvent(eventType: NetworkEventType, sender: U32, messageLength: Option<nat>)

  /** The event `PopEvent` reports for slot `s`. */
  function Popped(s: EventSlot): PoppedEvent
  {
    PoppedEvent(
      s.eventType,
      TruncateToU32(s.id),
      if s.eventType == Message && s.data.Some? then Some(|s.data.value|) else Option.None)
  }

  /** Last writer wins: after a run of calls the slot holds the type and id
      of the last call. */
  lemma {:induction false} LastWriterWins(s: EventSlot, es: seq<Incoming>)
    requires es != []
    ensures AbsorbAll(s, es).eventType == es[|es| - 1].eventType
    ensures AbsorbAll(s, es).id == es[|es| - 1].id
  {
  }

  /** After a run of calls the payload is the slot's earlier payload if no
      call carried a non-empty one. */
  lemma {:induction false} PayloadUntouchedWithoutCarrier(s: EventSlot, es: seq<Incoming>)
    requires forall i :: 0 <= i < |es| ==> !Carries(es[i])
    ensures AbsorbAll(s, es).data == s.data
  {
    if es != [] {
      var n := |es| - 1;
      var front := es[..n];
      assert forall i :: 0 <= i < n ==> front[i] == es[i];
      PayloadUntouchedWithoutCarrier(s, front);
    }
  }

  /** After a run of calls the payload is that of the last call that carried
      a non-empty one. */
  lemma {:induction false} PayloadIsLastNonEmpty(s: EventSlot, es: seq<Incoming>, k: nat)
    requires k < |es| && Carries(es[k])
    requires forall j :: k < j < |es| ==> !Carries(es[j])
    ensures AbsorbAll(s, es).data == es[k].data
  {
    var n := |es| - 1;
    var front := es[..n];
    if k < n {
      assert forall j :: k < j < n ==> front[j] == es[j];
      PayloadIsLastNonEmpty(s, front, k);
    }
  }

  /** An event with a null or empty payload leaves an earlier payload in place. */
  lemma EmptyPayloadKeepsEarlier(s: EventSlot, e: Incoming)
    requires !Carries(e)
    ensures Absorb(s, e).data == s.data
  {
  }

  /** The slot is not a queue: of two messages that arrive before a
      `PopEvent`, only the second is reported, and the next `PopEvent`
      reports nothing. */
  lemma SlotIsNotAQueue(first: seq<byte>, second: seq<byte>, a: U32, b: U32)
    requires |first| > 0 && |second| > 0
    ensures var s := AbsorbAll(Reset, [Incoming(Message, a, Some(first)), Incoming(Message, b, Some(second))]);
      && Popped(s) == PoppedEvent(Message, b, Some(|second|))
      && Popped(Reset) == PoppedEvent(Undefined, 0, Option.None)
  {
    var e1, e2 := Incoming(Message, a, Some(first)), Incoming(Message, b, Some(second));
    assert [e1, e2][..1] == [e1];
  }

  /** A payload arriving with a message is reported with its length. */
  lemma MessageIsReportedWithItsLength(s: EventSlot, id: U32, payload: seq<byte>)
    requires |payload| > 0
    ensures Popped(Absorb(s, Incoming(Message, id, Some(payload)))) == PoppedEvent(Message, id, Some(|payload|))
  {
  }

  /** An empty message that follows an unpopped message is reported with
      the earlier message's length; straight after a `PopEvent` it is
      reported with no message at all. */
  lemma EmptyMessageReportsStalePayload(earlier: seq<byte>, a: U32, b: U32)
    requires |earlier| > 0
    ensures Popped(Absorb(Absorb(Reset, Incoming(Message, a, Some(earlier))), Incoming(Message, b, Some([])))) ==
            PoppedEvent(Message, b, Some(|earlier|))
    ensures Popped(Absorb(Reset, Incoming(Message, b, Some([])))) == PoppedEvent(Message, b, Option.None)
  {
  }

  /** Connection events never attach a message, whatever payload the slot
      still holds from before. */
  lemma ConnectionEventsAttachNoMessage(s: EventSlot, t: NetworkEventType, id: U64, data: Option<seq<byte>>)
    requires t != Message
    ensures Popped(Absorb(s, Incoming(t, id, data))).messageLength == Option.None
  {
  }

  /** The reported sender keeps only the low 32 bits of the event id: a
      connection id is reported as is, a 64-bit Steam id is not. */
  lemma SenderIsLow32Bits(s: EventSlot)
    ensures Popped(s).sender == s.id % TWO_TO_THE_32
    ensures s.id < TWO_TO_THE_32 ==> Popped(s).sender == s.id
    ensures s.id >= TWO_TO_THE_32 ==> Popped(s).sender != s.id
  {
  }

  /** A typical individual Steam id (universe 1, account type 1) is
      reported as a different, 32-bit sender id. */
  lemma SteamIdIsTruncated()
    ensures Popped(EventSlot(Message, 0x0110_0001_0000_002A, Option.None)).sender == 0x2A
  {
  }
}
