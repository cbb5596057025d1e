/** The value transforms both senders apply: sign inversion of selected
    joints, the joint map keyed by actuator id, and the range flip of the
    glove channels. */
module Transforms {
  import opened Telemetry

  /** Actuators whose position is sent negated. */
  const InvertedIds: set<int> := {11, 15, 21, 25}

  /** Full scale of a glove channel; a channel is sent as `FingerMaxValue - raw`. */
  const FingerMaxValue: int := 65535

  /** Number of glove channels the sender starts out with. */
  const NumFingers: nat := 6

  /** The position sent for one actuator, before rounding. */
  function Invert(actuatorId: int, position: real): real
  {
    if actuatorId in InvertedIds then -position else position
  }

  /** The joint dictionary after the loop has stored every state in order:
      entry `id` holds the rounded, possibly negated position, and a later
      state for the same id overwrites an earlier one. `round` stands for
      the float rounding the sender applies. */
  function JointMap(states: seq<ActuatorState>, round: real -> real): (joints: map<int, real>)
    ensures joints.Keys == set st | st in states :: st.actuatorId
  {
    if states == [] then map[]
    else
      var last := states[|states| - 1];
      JointMap(states[..|states| - 1], round)[last.actuatorId := round(Invert(last.actuatorId, last.position))]
  }

  /** The value stored for an id is that of its LAST state in the reply:
      negated when the id is one of the inverted actuators, unchanged
      otherwise, then rounded. */
  lemma {:induction false} JointMapLastWins(states: seq<ActuatorState>, round: real -> real, i: nat)
    requires i < |states|
    requires forall j | i < j < |states| :: states[j].actuatorId != states[i].actuatorId
    ensures states[i].actuatorId in JointMap(states, round)
    ensures JointMap(states, round)[states[i].actuatorId] ==
            round(if states[i].actuatorId in InvertedIds then -states[i].position else states[i].position)
  {
    if i < |states| - 1 {
      var prefix := states[..|states| - 1];
      JointMapLastWins(prefix, round, i);
    }
  }

  /** The loop that fills the joint dictionary in place, one state at a time. */
  method CollectJoints(states: seq<ActuatorState>, round: real -> real) returns (joints: map<int, real>)
    ensures joints == JointMap(states, round)
  {
    joints := map[];
    var i := 0;
    while i < |states|
      invariant 0 <= i <= |states|
      invariant joints == JointMap(states[..i], round)
    {
      var position := states[i].position;
      if states[i].actuatorId in InvertedIds {
        position := -position;
      }
      joints := joints[states[i].actuatorId := round(position)];
      assert states[..i + 1][..i] == states[..i];
      i := i + 1;
    }
    assert states[..i] == states;
  }

  /** The flipped glove reading: same length and order as the raw reading,
      each channel `FingerMaxValue - raw`, with no clamping. */
  function FlipAll(raw: seq<int>): (flipped: seq<int>)
    ensures |flipped| == |raw|
    ensures forall k | 0 <= k < |raw| :: flipped[k] == FingerMaxValue - raw[k]
  {
    if raw == [] then [] else [FingerMaxValue - raw[0]] + FlipAll(raw[1..])
  }

  /** Flipping twice gives back the raw reading. */
  lemma {:induction false} FlipAllInvolution(raw: seq<int>)
    ensures FlipAll(FlipAll(raw)) == raw
  {
    var twice := FlipAll(FlipAll(raw));
    assert forall k | 0 <= k < |raw| :: twice[k] == raw[k];
  }
}
