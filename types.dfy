/**
  Value types shared by the Facepunch Steamworks network driver model:
  fixed-width integers, the engine's and the Steam library's enumerations,
  connection handles, registry records and the abstract transport's actions.
*/
module SteamTypes {

  const TWO_TO_THE_32: int := 0x1_0000_0000
  const TWO_TO_THE_64: int := 0x1_0000_0000_0000_0000

  /** C# `uint`. */
  type U32 = x: int | 0 <= x < TWO_TO_THE_32
  /** C# `ulong`; also the representation of a 64-bit `SteamId`. */
  type U64 = x: int | 0 <= x < TWO_TO_THE_64
  /** C# `byte`. */
  newtype byte = x: int | 0 <= x < 256

  /** An unchecked `(uint)` cast of a `ulong`: the low 32 bits. */
  function TruncateToU32(x: U64): (r: U32)
    ensures x < TWO_TO_THE_32 ==> r == x
    ensures (x - r) % TWO_TO_THE_32 == 0
  {
    x % TWO_TO_THE_32
  }

  datatype Option<T> = None | Some(value: T)

  /** Whether a callback ran to its end or was cut short by a
      `NullReferenceException` (a dereference of a null reference). */
  datatype Outcome = Completed | NullReference

  /** The engine's channel kind. `Undeclared` stands for any other value of
      the underlying integer, which the C# enum type admits. */
  datatype NetworkChannelType =
    | None
    | Unreliable
    | UnreliableOrdered
    | Reliable
    | ReliableOrdered
    | Undeclared(code: int)

  /** The two Steam send types the driver uses. */
  datatype SendType = SendUnreliable | SendReliable

  /** The engine's network event kind. */
  datatype NetworkEventType = Undefined | Connected | Disconnected | Timeout | Message

  /** A Steam `Connection` is a value wrapping its 32-bit handle. */
  datatype Connection = Connection(id: U32)

  /** `FacepunchNetworkDriver.Client`: the peer's Steam id and its connection. */
  datatype Client = Client(steamId: U64, socketConnection: Connection)

  /** What the driver asks of the Steam library through a connection. */
  datatype Action =
    | Send(conn: Connection, payload: seq<byte>, sendType: SendType)
    | Flush(conn: Connection)
    | Close(conn: Connection)
    | Accept(conn: Connection)
}
