/** The combined glove + motor sender: each cycle reads the actuator states
    and the glove channels, composes one packet with a timestamp, the joint
    map and the finger values, and sends it; the finger values fall back to
    the last successful read. The upstream drivers, the clock and the
    socket's success are inputs. */
module CombinedGloveUdpSender {
  import opened Telemetry
  import opened Transforms

  /** The glove driver handle: whether `start()` reported success, and
      whether `stop()` has been called on it. */
  datatype Glove = Glove(started: bool, stopRequested: bool)

  /** One slot of a gather that returns exceptions as values. */
  datatype Gathered<T> = Returned(value: T) | Raised

  /** What each setup step meets: the KOS client can be created, the glove
      object can be created, its `start()` reports success, the socket can
      be created. */
  datatype SetupInputs = SetupInputs(kosConnects: bool, gloveCreated: bool, gloveStarts: bool, socketOpens: bool)

  predicate SetupSucceeds(setup: SetupInputs)
  {
    setup.kosConnects && setup.gloveCreated && setup.gloveStarts && setup.socketOpens
  }

  /** What one cycle of the run loop meets: the actuator and glove replies,
      whether either coroutine ended with an exception its own handler does
      not catch (gather then returns the exception object), the clock, whether
      `sendto` succeeds, and whether the interrupt signal arrives during the
      cycle or the sleep after it. */
  datatype CycleInput = CycleInput(
    actuators: Reply<ActuatorState>,
    glove: Reply<int>,
    motorRaised: bool,
    fingersRaised: bool,
    timestamp: real,
    delivered: bool,
    interrupted: bool)

  /** The finger values a new sender holds: `NumFingers` zeros. */
  const InitialFingers: seq<int> := seq(NumFingers, _ => 0)

  /** A cycle whose glove read and flip ran to the end. */
  predicate FreshRead(c: CycleInput)
  {
    !c.fingersRaised && c.glove.Complete?
  }

  /** The stored finger values after one cycle. */
  function NextFingers(c: CycleInput, last: seq<int>): seq<int>
  {
    if FreshRead(c) then FlipAll(c.glove.items) else last
  }

  /** The packet one cycle composes when the stored finger values were `last`. */
  function CyclePacket(c: CycleInput, last: seq<int>, round: real -> real): Packet
  {
    CombinedPacket(
      c.timestamp,
      if c.motorRaised then map[] else JointMap(c.actuators.Handled(), round),
      NextFingers(c, last))
  }

  /** The stored finger values after the cycles `cs`, starting from `init`. */
  function FingersAfter(cs: seq<CycleInput>, init: seq<int>): seq<int>
  {
    if cs == [] then init else NextFingers(cs[|cs| - 1], FingersAfter(cs[..|cs| - 1], init))
  }

  /** The datagrams the cycles `cs` hand to an open socket, in order. */
  function PacketsSent(cs: seq<CycleInput>, init: seq<int>, round: real -> real): seq<Packet>
  {
    if cs == [] then []
    else
      var prefix := cs[..|cs| - 1];
      var last := cs[|cs| - 1];
      PacketsSent(prefix, init, round)
      + (if last.delivered then [CyclePacket(last, FingersAfter(prefix, init), round)] else [])
  }

  /** The index of the first cycle during which the signal arrives, or `|cs|`. */
  function FirstSignalled(cs: seq<CycleInput>): (r: nat)
    ensures r <= |cs|
    ensures forall k | 0 <= k < r :: !cs[k].interrupted
    ensures r < |cs| ==> cs[r].interrupted
  {
    if cs == [] || cs[0].interrupted then 0 else 1 + FirstSignalled(cs[1..])
  }

  /** How many cycles the run loop executes: none when the flag is already
      set, otherwise up to and including the cycle the signal arrives in. */
  function CyclesRun(terminated: bool, cs: seq<CycleInput>): nat
  {
    if terminated then 0
    else if FirstSignalled(cs) < |cs| then FirstSignalled(cs) + 1
    else |cs|
  }

  /** Until the first complete glove read, the stored finger values are the
      initial ones. */
  lemma {:induction false} FingersKeptWithoutFreshRead(cs: seq<CycleInput>, init: seq<int>)
    requires forall k | 0 <= k < |cs| :: !FreshRead(cs[k])
    ensures FingersAfter(cs, init) == init
  {
    if cs != [] {
      FingersKeptWithoutFreshRead(cs[..|cs| - 1], init);
    }
  }

  /** After any number of failed reads, the stored finger values are the
      flip of the latest complete read. */
  lemma {:induction false} FingersFromLatestFreshRead(cs: seq<CycleInput>, init: seq<int>, k: nat)
    requires k < |cs| && FreshRead(cs[k])
    requires forall j | k < j < |cs| :: !FreshRead(cs[j])
    ensures FingersAfter(cs, init) == FlipAll(cs[k].glove.items)
  {
    if k < |cs| - 1 {
      FingersFromLatestFreshRead(cs[..|cs| - 1], init, k);
    }
  }

  /** The stored finger values keep `n` channels as long as every complete
      glove read delivers `n` channels. */
  lemma {:induction false} FingerArityKept(cs: seq<CycleInput>, init: seq<int>, n: nat)
    requires |init| == n
    requires forall k | 0 <= k < |cs| :: FreshRead(cs[k]) ==> |cs[k].glove.items| == n
    ensures |FingersAfter(cs, init)| == n
  {
    if cs != [] {
      FingerArityKept(cs[..|cs| - 1], init, n);
    }
  }

  /** The number of cycles among `cs` whose `sendto` succeeds. */
  function Delivered(cs: seq<CycleInput>): nat
  {
    if cs == [] then 0 else Delivered(cs[..|cs| - 1]) + (if cs[|cs| - 1].delivered then 1 else 0)
  }

  /** Exactly one datagram goes out per delivered cycle, in cycle order: the
      packet of delivered cycle `k` sits at the position given by the number
      of delivered cycles before it, composed from that cycle's own readings
      and the finger values stored before it; and nothing else goes out. */
  lemma {:induction false} SentPacketsComeFromDeliveredCycles(cs: seq<CycleInput>, init: seq<int>, round: real -> real)
    ensures |PacketsSent(cs, init, round)| == Delivered(cs)
    ensures forall k | 0 <= k < |cs| && cs[k].delivered ::
              Delivered(cs[..k]) < Delivered(cs)
              && PacketsSent(cs, init, round)[Delivered(cs[..k])] == CyclePacket(cs[k], FingersAfter(cs[..k], init), round)
    ensures forall p | p in PacketsSent(cs, init, round) ::
              exists k | 0 <= k < |cs| :: cs[k].delivered && p == CyclePacket(cs[k], FingersAfter(cs[..k], init), round)
  {
    if cs != [] {
      var prefix := cs[..|cs| - 1];
      var last := cs[|cs| - 1];
      SentPacketsComeFromDeliveredCycles(prefix, init, round);
      var sent := PacketsSent(cs, init, round);
      assert sent == PacketsSent(prefix, init, round)
                     + (if last.delivered then [CyclePacket(last, FingersAfter(prefix, init), round)] else []);
      forall k | 0 <= k < |cs| && cs[k].delivered
        ensures Delivered(cs[..k]) < Delivered(cs)
        ensures sent[Delivered(cs[..k])] == CyclePacket(cs[k], FingersAfter(cs[..k], init), round)
      {
        if k < |prefix| {
          assert cs[..k] == prefix[..k];
          assert prefix[k] == cs[k];
        } else {
          assert cs[..k] == prefix;
        }
      }
      forall p | p in sent
        ensures exists k | 0 <= k < |cs| :: cs[k].delivered && p == CyclePacket(cs[k], FingersAfter(cs[..k], init), round)
      {
        if p in PacketsSent(prefix, init, round) {
          var k :| 0 <= k < |prefix| && prefix[k].delivered && p == CyclePacket(prefix[k], FingersAfter(prefix[..k], init), round);
          assert prefix[..k] == cs[..k];
        } else {
          assert cs[..|cs| - 1] == prefix;
        }
      }
    }
  }

  class Sender {
    var kos: bool                  // the KOS client exists
    var posInput: Option<Glove>
    var sock: Option<Socket>
    var terminated: bool
    var fingerData: seq<int>       // last known finger values

    constructor ()
      ensures !kos && posInput == None && sock == None && !terminated
      ensures fingerData == InitialFingers
      ensures |fingerData| == NumFingers && forall k | 0 <= k < NumFingers :: fingerData[k] == 0
    {
      kos := false;
      posInput := None;
      sock := None;
      terminated := false;
      fingerData := InitialFingers;
    }

    /** The interrupt handler: it sets the flag and touches nothing else, so
        a second signal changes nothing. */
    method SignalHandler()
      modifies this`terminated
      ensures terminated
    {
      terminated := true;
    }

    method SetupKos(connects: bool) returns (ok: bool)
      modifies this`kos
      ensures ok == connects
      ensures kos == (connects || old(kos))
    {
      if connects {
        kos := true;
      }
      ok := connects;
    }

    /** The glove object is stored as soon as it is created, even when its
        `start()` then fails. */
    method SetupGlove(created: bool, starts: bool) returns (ok: bool)
      modifies this`posInput
      ensures ok == (created && starts)
      ensures posInput == if created then Some(Glove(starts, false)) else old(posInput)
    {
      if !created {
        return false;
      }
      posInput := Some(Glove(starts, false));
      ok := starts;
    }

    method SetupUdp(opens: bool) returns (ok: bool)
      modifies this`sock
      ensures ok == opens
      ensures sock == if opens then Some(Socket([], false)) else old(sock)
    {
      if opens {
        sock := Some(Socket([], false));
      }
      ok := opens;
    }

    /** The joint map of one actuator read. A failed request gives the empty
        map; a failure part-way through keeps the entries already stored;
        no exception escapes. */
    method GetMotorPositions(actuators: Reply<ActuatorState>, round: real -> real) returns (joints: map<int, real>)
      ensures actuators.RequestRaised? ==> joints == map[]
      ensures !actuators.RequestRaised? ==> joints == JointMap(actuators.items, round)
    {
      joints := map[];
      match actuators
      case RequestRaised =>
      case Complete(states) =>
        joints := CollectJoints(states, round);
      case RaisedAfter(states) =>
        joints := CollectJoints(states, round);
    }

    /** Reads and flips the glove channels. The stored values are replaced
        only once the whole list is flipped; on any failure the previous
        values stay and are returned. */
    method GetFingerPositions(glove: Reply<int>) returns (fingers: seq<int>)
      modifies this`fingerData
      ensures glove.Complete? ==> fingerData == FlipAll(glove.items)
      ensures !glove.Complete? ==> fingerData == old(fingerData)
      ensures fingers == fingerData
    {
      if !glove.RequestRaised? {
        var raw := glove.items;
        var flipped := [];
        var i := 0;
        while i < |raw|
          invariant 0 <= i <= |raw|
          invariant |flipped| == i
          invariant forall k | 0 <= k < i :: flipped[k] == FingerMaxValue - raw[k]
        {
          flipped := flipped + [FingerMaxValue - raw[i]];
          i := i + 1;
        }
        if glove.Complete? {
          assert flipped == FlipAll(raw);
          fingerData := flipped;
        }
      }
      fingers := fingerData;
    }

    /** One cycle: gather both reads, fall back to `{}` for the joints and to
        the stored values for the fingers when a slot holds an exception,
        compose the packet and send it if there is a socket. */
    method SendCombinedData(c: CycleInput, round: real -> real)
      modifies this`fingerData, this`sock
      ensures fingerData == NextFingers(c, old(fingerData))
      ensures sock == if old(sock).Some?
                      then Some(old(sock).value.SendTo(CyclePacket(c, old(fingerData), round), c.delivered))
                      else None
    {
      var motorSlot: Gathered<map<int, real>> := Raised;
      if !c.motorRaised {
        var joints := GetMotorPositions(c.actuators, round);
        motorSlot := Returned(joints);
      }
      var fingerSlot: Gathered<seq<int>> := Raised;
      if !c.fingersRaised {
        var fingers := GetFingerPositions(c.glove);
        fingerSlot := Returned(fingers);
      }
      var motorPositions := if motorSlot.Raised? then map[] else motorSlot.value;
      var fingerValues := if fingerSlot.Raised? then fingerData else fingerSlot.value;
      var packet := CombinedPacket(c.timestamp, motorPositions, fingerValues);
      if sock.Some? {
        sock := Some(sock.value.SendTo(packet, c.delivered));
      }
    }

    /** Stops the glove and closes the socket, each only if its handle
        exists; failures of either are swallowed. */
    method Cleanup()
      modifies this`posInput, this`sock
      ensures posInput == if old(posInput).Some? then Some(old(posInput).value.(stopRequested := true)) else None
      ensures sock == if old(sock).Some? then Some(old(sock).value.Close()) else None
    {
      if posInput.Some? {
        posInput := Some(posInput.value.(stopRequested := true));
      }
      if sock.Some? {
        sock := Some(sock.value.Close());
      }
    }

    /** Setup in the order KOS, glove, socket, returning at the first
        failure without entering the loop or cleaning up; then one cycle per
        input until the flag is seen set between cycles, then cleanup. When
        no signal arrives among the given cycles the loop is still running
        after them, so nothing is cleaned up. */
    method Run(setup: SetupInputs, cycles: seq<CycleInput>, round: real -> real)
      modifies this
      ensures !setup.kosConnects ==>
                kos == old(kos) && posInput == old(posInput) && sock == old(sock)
                && terminated == old(terminated) && fingerData == old(fingerData)
      ensures setup.kosConnects && !(setup.gloveCreated && setup.gloveStarts) ==>
                kos && sock == old(sock) && terminated == old(terminated) && fingerData == old(fingerData)
                && posInput == (if setup.gloveCreated then Some(Glove(false, false)) else old(posInput))
      ensures setup.kosConnects && setup.gloveCreated && setup.gloveStarts && !setup.socketOpens ==>
                kos && sock == old(sock) && terminated == old(terminated) && fingerData == old(fingerData)
                && posInput == Some(Glove(true, false))
      ensures SetupSucceeds(setup) ==>
                var n := CyclesRun(old(terminated), cycles);
                && kos
                && (terminated <==> old(terminated) || exists k | 0 <= k < |cycles| :: cycles[k].interrupted)
                && (!terminated ==> n == |cycles|)
                && fingerData == FingersAfter(cycles[..n], old(fingerData))
                && sock == Some(Socket(PacketsSent(cycles[..n], old(fingerData), round), terminated))
                && posInput == Some(Glove(true, terminated))
    {
      var ok := SetupKos(setup.kosConnects);
      if !ok {
        return;
      }
      ok := SetupGlove(setup.gloveCreated, setup.gloveStarts);
      if !ok {
        return;
      }
      ok := SetupUdp(setup.socketOpens);
      if !ok {
        return;
      }
      var i := 0;
      while !terminated && i < |cycles|
        invariant 0 <= i <= |cycles|
        invariant kos && posInput == Some(Glove(true, false))
        invariant fingerData == FingersAfter(cycles[..i], old(fingerData))
        invariant sock == Some(Socket(PacketsSent(cycles[..i], old(fingerData), round), false))
        invariant !terminated ==> !old(terminated) && forall k | 0 <= k < i :: !cycles[k].interrupted
        invariant terminated ==> i == CyclesRun(old(terminated), cycles)
        invariant terminated && !old(terminated) ==> 0 < i && cycles[i - 1].interrupted
      {
        assert cycles[..i + 1][..i] == cycles[..i];
        ghost var sentBefore := PacketsSent(cycles[..i], old(fingerData), round);
        if !cycles[i].delivered {
          assert sentBefore + [] == sentBefore;
        }
        SendCombinedData(cycles[i], round);
        if cycles[i].interrupted {
          SignalHandler();
        }
        i := i + 1;
      }
      if terminated {
        Cleanup();
      }
    }
  }

  /** The single-packet test mode: a new sender, the same setup, one cycle,
      then cleanup; a setup failure returns before either. */
  method TestSingleSend(setup: SetupInputs, c: CycleInput, round: real -> real) returns (sender: Sender)
    ensures fresh(sender)
    ensures !SetupSucceeds(setup) ==> sender.sock == None && sender.fingerData == InitialFingers
    ensures SetupSucceeds(setup) ==>
              && sender.sock == Some(Socket(PacketsSent([c], InitialFingers, round), true))
              && sender.fingerData == NextFingers(c, InitialFingers)
              && sender.posInput == Some(Glove(true, true))
  {
    sender := new Sender();
    var ok := sender.SetupKos(setup.kosConnects);
    if !ok {
      return;
    }
    ok := sender.SetupGlove(setup.gloveCreated, setup.gloveStarts);
    if !ok {
      return;
    }
    ok := sender.SetupUdp(setup.socketOpens);
    if !ok {
      return;
    }
    assert [c][..0] == [];
    assert PacketsSent([c], InitialFingers, round)
        == [] + (if c.delivered then [CyclePacket(c, InitialFingers, round)] else []);
    sender.SendCombinedData(c, round);
    sender.Cleanup();
  }
}
