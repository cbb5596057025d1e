/** The motor-only sender: a loop that reads the actuator states, builds a
    packet with a timestamp and the joint map, and sends it, every cycle
    until interrupted; and a test mode that sends one such packet. The KOS
    client, the clock and the socket's success are inputs. */
module SendUdpScript {
  import opened Telemetry
  import opened Transforms

  /** What the script meets, in order: a cycle with its actuator reply, the
      clock and whether `sendto` succeeds; or the keyboard interrupt. */
  datatype ScriptEvent =
    | Cycle(actuators: Reply<ActuatorState>, timestamp: real, delivered: bool)
    | KeyboardInterrupt

  /** The datagrams one cycle sends: the whole packet when the reply was
      consumed to the end and `sendto` succeeded, otherwise nothing. */
  function CycleSends(e: ScriptEvent, round: real -> real): seq<Packet>
  {
    if e.Cycle? && e.actuators.Complete? && e.delivered
    then [MotorPacket(e.timestamp, JointMap(e.actuators.items, round))]
    else []
  }

  /** The datagrams a run of cycles sends, in order. */
  function Sends(cs: seq<ScriptEvent>, round: real -> real): seq<Packet>
  {
    if cs == [] then [] else Sends(cs[..|cs| - 1], round) + CycleSends(cs[|cs| - 1], round)
  }

  /** The index of the first keyboard interrupt, or `|events|`. */
  function FirstInterrupt(events: seq<ScriptEvent>): (r: nat)
    ensures r <= |events|
    ensures forall k | 0 <= k < r :: events[k].Cycle?
    ensures r < |events| ==> events[r].KeyboardInterrupt?
  {
    if events == [] || events[0].KeyboardInterrupt? then 0 else 1 + FirstInterrupt(events[1..])
  }

  /** Cycles are independent: what a run sends is what its parts send. */
  lemma {:induction false} SendsAppend(a: seq<ScriptEvent>, b: seq<ScriptEvent>, round: real -> real)
    ensures Sends(a + b, round) == Sends(a, round) + Sends(b, round)
    decreases |b|
  {
    if b == [] {
      assert a + b == a;
    } else {
      var b' := b[..|b| - 1];
      SendsAppend(a, b', round);
      assert (a + b)[..|a + b| - 1] == a + b';
      assert (a + b)[|a + b| - 1] == b[|b| - 1];
    }
  }

  /** A cycle that fails anywhere sends nothing, and the cycles after it
      send exactly what they would have sent without it. */
  lemma {:induction false} FailedCycleSendsNothing(before: seq<ScriptEvent>, e: ScriptEvent, after: seq<ScriptEvent>, round: real -> real)
    requires e.Cycle?
    requires !e.actuators.Complete? || !e.delivered
    ensures Sends(before + [e] + after, round) == Sends(before, round) + Sends(after, round)
  {
    assert [e][..0] == [];
    assert Sends([e], round) == [];
    SendsAppend(before, [e], round);
    SendsAppend(before + [e], after, round);
    assert Sends(before + [e], round) == Sends(before, round);
  }

  /** No partial packet ever goes out: every datagram is the packet of one
      cycle whose reply was consumed to the end and whose send succeeded,
      carrying that cycle's timestamp and complete joint map. */
  lemma {:induction false} SentPacketsAreWhole(cs: seq<ScriptEvent>, round: real -> real)
    ensures |Sends(cs, round)| <= |cs|
    ensures forall p | p in Sends(cs, round) ::
              exists k | 0 <= k < |cs| ::
                && cs[k].Cycle? && cs[k].actuators.Complete? && cs[k].delivered
                && p == MotorPacket(cs[k].timestamp, JointMap(cs[k].actuators.items, round))
  {
    if cs != [] {
      var prefix := cs[..|cs| - 1];
      SentPacketsAreWhole(prefix, round);
      forall p | p in Sends(cs, round)
        ensures exists k | 0 <= k < |cs| ::
                  && cs[k].Cycle? && cs[k].actuators.Complete? && cs[k].delivered
                  && p == MotorPacket(cs[k].timestamp, JointMap(cs[k].actuators.items, round))
      {
        if p in Sends(prefix, round) {
          var k :| 0 <= k < |prefix|
                   && prefix[k].Cycle? && prefix[k].actuators.Complete? && prefix[k].delivered
                   && p == MotorPacket(prefix[k].timestamp, JointMap(prefix[k].actuators.items, round));
          assert cs[k] == prefix[k];
        }
      }
    }
  }

  /** One cycle's body: the joint map is filled in place; the packet is
      sent only after the loop over the states has finished, so a failure
      anywhere in the cycle sends nothing. */
  method RunCycle(sock: Socket, actuators: Reply<ActuatorState>, timestamp: real, delivered: bool, round: real -> real)
    returns (sock': Socket)
    requires !sock.closed
    ensures sock' == Socket(sock.sent + CycleSends(Cycle(actuators, timestamp, delivered), round), false)
  {
    sock' := sock;
    match actuators
    case RequestRaised =>
    case RaisedAfter(states) =>
      // the partial joint map is built, then the exception drops it
      var partial := CollectJoints(states, round);
    case Complete(states) =>
      var joints := CollectJoints(states, round);
      sock' := sock.SendTo(MotorPacket(timestamp, joints), delivered);
    if sock' == sock {
      assert sock.sent + [] == sock.sent;
    }
  }

  /** The continuous mode. The socket is created first; if the KOS client
      cannot be created nothing is sent. Otherwise every cycle before the
      first keyboard interrupt runs, an error in a cycle only costing that
      cycle's packet. The socket is closed on every exit path; when the
      given events hold no interrupt the loop is still running after them
      and the socket is still open. */
  method SendMotorPositionsUdp(kosConnects: bool, events: seq<ScriptEvent>, round: real -> real)
    returns (sock: Socket)
    ensures sock.sent == if kosConnects then Sends(events[..FirstInterrupt(events)], round) else []
    ensures sock.closed <==> !kosConnects || exists k | 0 <= k < |events| :: events[k].KeyboardInterrupt?
  {
    sock := Socket([], false);
    if !kosConnects {
      sock := sock.Close();
      return;
    }
    var i := 0;
    while i < |events| && events[i].Cycle?
      invariant 0 <= i <= |events|
      invariant forall k | 0 <= k < i :: events[k].Cycle?
      invariant sock == Socket(Sends(events[..i], round), false)
    {
      assert events[..i + 1][..i] == events[..i];
      sock := RunCycle(sock, events[i].actuators, events[i].timestamp, events[i].delivered, round);
      i := i + 1;
    }
    if i < |events| {
      sock := sock.Close();
    }
  }

  /** The test mode: one cycle's packet, built exactly as the continuous
      mode builds it, then the socket is closed whatever happened. */
  method TestSingleSend(kosConnects: bool, actuators: Reply<ActuatorState>, timestamp: real, delivered: bool, round: real -> real)
    returns (sock: Socket)
    ensures sock.closed
    ensures sock.sent == if kosConnects then Sends([Cycle(actuators, timestamp, delivered)], round) else []
  {
    sock := Socket([], false);
    if kosConnects {
      assert [Cycle(actuators, timestamp, delivered)][..0] == [];
      sock := RunCycle(sock, actuators, timestamp, delivered, round);
    }
    sock := sock.Close();
  }
}
