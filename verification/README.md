# Glove + motor UDP telemetry senders — a Dafny model

The repository streams robot joint positions (read from the KOS actuator
service) and, in its combined variant, the six channels of a USB position
glove to a UDP peer at a fixed rate. This project models the logic of the
two senders that do this:

- `combined_glove_udp_sender.py` — the `CombinedGloveUDPSender` class: the
  joint map with sign inversion of actuators 11, 15, 21 and 25, the glove
  range flip (`65535 - value`), the last-known finger values that start as
  six zeros, the composition of `{timestamp, joints, fingers}` with its
  fallbacks, and the lifecycle (setup KOS → glove → UDP, run loop polling
  the `terminated` flag that the interrupt handler sets, cleanup);
- `send_udp_script.py` — the motor-only loop that sends
  `{timestamp, joints}` each cycle, drops the whole packet when anything in
  a cycle fails, and closes the socket on every exit; and its single-send
  test mode.

Files:

- `telemetry.dfy` (module `Telemetry`): actuator states, the `Reply` of an
  upstream read (consumed to the end / raised after some items / request
  raised), the two packet shapes, and the socket as a value (datagrams
  handed to it, closed flag).
- `transforms.dfy` (module `Transforms`): the constants, the joint map
  (`JointMap`, specification; `CollectJoints`, the in-place loop) and the
  finger flip (`FlipAll`).
- `combined_glove_udp_sender.dfy` (module `CombinedGloveUdpSender`): class
  `Sender` with the fields `kos`, `posInput`, `sock`, `terminated` and
  `fingerData`, and functions `FingersAfter` and `PacketsSent` that say what
  a run of cycles leaves in the fields and on the socket.
- `send_udp_script.dfy` (module `SendUdpScript`): the continuous and the
  single-send modes, specified by `Sends`.

Modelling choices:

- Upstream results are inputs. An actuator or glove read is a `Reply`. A
  gather slot that holds an exception is a flag on the cycle's input. Setup
  outcomes are booleans. So are the success of `sendto` and the arrival of
  the interrupt.
- Joint keys are the integer ids. The source keys by `str(actuator_id)`,
  which is injective on integers, so nothing is lost.
- Positions are `real`. `round(position, 1)` and `round(position, 2)` are a
  parameter `round: real -> real`, and the timestamp is a parameter.
- The socket and the glove handle are values held in the sender's fields.
  Each is owned by exactly one sender, so no aliasing is lost.
- The infinite loops are driven by a finite sequence of cycle inputs. If no
  signal or interrupt arrives among them, the model stops with the loop
  still running: nothing is cleaned up and the socket is still open.
- The two coroutines of the gather touch disjoint state. The model runs
  them one after the other.

What the code does and does not do:

- An actuator read that fails part-way keeps the entries already stored
  (combined_glove_udp_sender.py:86-102).
- Nothing fixes the number of finger channels: the stored values take the
  length of the glove's reply. `FingerArityKept` says when it stays six.
- The senders have no per-call timeout, no overall deadline, no
  non-blocking send or drop counter, and no failure counter or
  reconnection.

## Model

| member | source | states |
|---|---|---|
| `Transforms.JointMap` | combined_glove_udp_sender.py:90-97 | the keys of the joint map are exactly the actuator ids of the states iterated |
| `Transforms.JointMapLastWins` | combined_glove_udp_sender.py:93-97 | the value stored for an id comes from its last state: the position negated when the id is 11, 15, 21 or 25, unchanged otherwise, then rounded |
| `Transforms.CollectJoints` | send_udp_script.py:39-47 | the dictionary-filling loop (also combined_glove_udp_sender.py:90-97 and send_udp_script.py:84-91) produces exactly `JointMap` of the states |
| `Transforms.FlipAll` | combined_glove_udp_sender.py:109-114 | the flipped reading has the raw reading's length and order, each channel `65535 - raw`, with no clamping |
| `Transforms.FlipAllInvolution` | combined_glove_udp_sender.py:111-114 | flipping twice gives back the raw reading |
| `CombinedGloveUdpSender.FirstSignalled` | combined_glove_udp_sender.py:181-183 | the first cycle during which the signal arrives: no earlier cycle had it; with `CyclesRun`, the loop runs up to and including that cycle, since the flag is read only between cycles |
| `CombinedGloveUdpSender.FingersKeptWithoutFreshRead` | combined_glove_udp_sender.py:104-121 | until a glove read and flip completes, the stored finger values stay what they were (six zeros for a new sender) |
| `CombinedGloveUdpSender.FingersFromLatestFreshRead` | combined_glove_udp_sender.py:104-121 | after any run of cycles the stored finger values are the flip of the latest complete glove read, whatever failed after it |
| `CombinedGloveUdpSender.FingerArityKept` | combined_glove_udp_sender.py:111-116 | the finger values keep their length as long as every complete glove read has that many channels |
| `CombinedGloveUdpSender.SentPacketsComeFromDeliveredCycles` | combined_glove_udp_sender.py:134-148 | every datagram sent is the packet of one cycle whose send succeeded: that cycle's own joints (or `{}`), never an earlier cycle's; exactly one datagram per delivered cycle, in cycle order, and nothing else |
| `CombinedGloveUdpSender.Sender.constructor` | combined_glove_udp_sender.py:29-45 | a new sender has no KOS client, glove or socket, the flag clear, and `NumFingers` (6) zero finger values |
| `CombinedGloveUdpSender.Sender.SignalHandler` | combined_glove_udp_sender.py:47-49 | the handler sets `terminated` and may change no other field, so a repeated signal changes nothing |
| `CombinedGloveUdpSender.Sender.SetupKos` | combined_glove_udp_sender.py:51-59 | reports whether the client was created and stores it only then |
| `CombinedGloveUdpSender.Sender.SetupGlove` | combined_glove_udp_sender.py:61-72 | the glove object is stored once created, even when `start()` then fails; success means created and started |
| `CombinedGloveUdpSender.Sender.SetupUdp` | combined_glove_udp_sender.py:74-82 | reports whether the socket was created and stores a fresh open socket only then |
| `CombinedGloveUdpSender.Sender.GetMotorPositions` | combined_glove_udp_sender.py:84-102 | a failed request gives `{}`; a failure part-way keeps the entries stored so far; otherwise the full joint map; nothing escapes |
| `CombinedGloveUdpSender.Sender.GetFingerPositions` | combined_glove_udp_sender.py:104-121 | the stored finger values are replaced by the flipped reading only after the whole read and flip succeed, are left unchanged on any failure, and are what is returned |
| `CombinedGloveUdpSender.Sender.SendCombinedData` | combined_glove_udp_sender.py:123-158 | the packet has exactly `timestamp`, `joints` and `fingers`; `joints` is the motor result or `{}`, `fingers` the finger result or the stored values; it goes out only if there is a socket and `sendto` succeeds |
| `CombinedGloveUdpSender.Sender.Cleanup` | combined_glove_udp_sender.py:191-209 | stops the glove only if its handle exists and closes the socket only if it exists; nothing else changes |
| `CombinedGloveUdpSender.Sender.Run` | combined_glove_udp_sender.py:160-189 | setup runs KOS, glove, UDP and returns at the first failure with no loop and no cleanup; otherwise the cycles up to the signal run, and the finger values and datagrams sent are those of `FingersAfter` and `PacketsSent`; once the flag is set, cleanup stops the glove and closes the socket |
| `CombinedGloveUdpSender.TestSingleSend` | combined_glove_udp_sender.py:212-235 | a new sender, setup, one cycle, cleanup; on a setup failure nothing is sent |
| `SendUdpScript.FirstInterrupt` | send_udp_script.py:28-64 | the loop runs every cycle before the first keyboard interrupt |
| `SendUdpScript.SendsAppend` | send_udp_script.py:28-61 | cycles are independent: a run sends what its parts send, in order |
| `SendUdpScript.FailedCycleSendsNothing` | send_udp_script.py:57-61 | a cycle that fails anywhere sends nothing, and the cycles after it send what they would have sent anyway |
| `SendUdpScript.SentPacketsAreWhole` | send_udp_script.py:34-51 | every datagram has exactly `timestamp` and `joints` and is the complete joint map of one cycle that finished and whose send succeeded; no partial packet goes out |
| `SendUdpScript.RunCycle` | send_udp_script.py:29-58 | one cycle adds its packet to the socket only if the whole state loop finished and `sendto` succeeded |
| `SendUdpScript.SendMotorPositionsUdp` | send_udp_script.py:14-69 | nothing is sent if the KOS client cannot be created; otherwise what `Sends` gives for the cycles before the first interrupt; the socket is closed on every exit path |
| `SendUdpScript.TestSingleSend` | send_udp_script.py:71-103 | sends exactly what one cycle of the continuous loop would send for the same reading, and always closes the socket |

## Left out

- Network and serialisation: the socket is a value that records the
  datagrams handed to it. `json.dumps`, UTF-8 encoding, addresses and
  ports are not modelled.
- Timing: `asyncio.sleep`, the send period and rate, and `time.time()` are
  left out. The timestamp is a parameter.
- Concurrency: the two coroutines of `asyncio.gather` are run one after the
  other. They touch disjoint state, so no interleaving changes the result.
- Float rounding: `round(·, 1)` and `round(·, 2)` are the parameter `round`.
  Positions are `real`, not IEEE doubles.
- Printing and the command-line dispatch in both `__main__` blocks.
- The upstream drivers (`pykos.KOS`, the USB glove driver) are not part of
  this model. Their results are inputs.
- `except KeyboardInterrupt` in `run` (combined_glove_udp_sender.py:185-186):
  the installed handler replaces the default interrupt behaviour, so the
  model signals only through `terminated`.
- Socket creation in `send_motor_positions_udp` and `test_single_send`
  (send_udp_script.py:18, 73) happens outside the `try`. The model assumes
  it succeeds.
- joint_udp_sender.py is not part of this model. It delegates pose logic to
  a library that is not visible here.
- get_motor_pos.py is not part of this model. It only prints actuator
  states.
- CombinedGloveUdpSender.Sender.Run: only a finite sequence of cycles is
  observed. When no signal arrives among them, the contract says the loop
  is still running; it says nothing about later cycles.
- SendUdpScript.SendMotorPositionsUdp: only a finite sequence of events is
  observed. When no keyboard interrupt arrives among them, the socket is
  still open and later cycles are not described. An interrupt is placed
  between cycles: one arriving mid-cycle behaves like one just before that
  cycle's send or just after it.
