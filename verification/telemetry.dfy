/** Values shared by both senders: what the upstream services deliver, the
    packets that go out, and the outbound datagram socket. */
module Telemetry {

  datatype Option<T> = None | Some(value: T)

  /** One entry of the actuator-state reply: an actuator id and its position (degrees). */
  datatype ActuatorState = ActuatorState(actuatorId: int, position: real)

  /** What an upstream read hands to the loop that consumes it item by item.
      The loop either runs to the end, or raises after handling a prefix of
      the items, or never starts because the request itself raised. */
  datatype Reply<T> =
    | Complete(items: seq<T>)
    | RaisedAfter(items: seq<T>)
    | RequestRaised
  {
    /** The items the consuming loop handled before it finished or raised. */
    function Handled(): seq<T>
    {
      if RequestRaised? then [] else items
    }
  }

  /** The record that is serialised into one datagram. Each constructor has
      exactly the keys of the corresponding dictionary; joint ids are the
      integers whose `str` forms the keys, `str` being injective on ints. */
  datatype Packet =
    | CombinedPacket(timestamp: real, joints: map<int, real>, fingers: seq<int>)
    | MotorPacket(timestamp: real, joints: map<int, real>)

  /** An outbound datagram socket: the datagrams handed to it so far and
      whether it has been closed. */
  datatype Socket = Socket(sent: seq<Packet>, closed: bool)
  {
    /** `sendto`: the datagram goes out only when the call succeeds
        (`delivered`) on an open socket; otherwise it raised and nothing went out. */
    function SendTo(p: Packet, delivered: bool): Socket
    {
      if delivered && !closed then this.(sent := sent + [p]) else this
    }

    function Close(): Socket
    {
      this.(closed := true)
    }
  }
}
