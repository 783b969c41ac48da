/** The mask arithmetic of the training step for one example: the gate
    labels' padding is turned into a loss weight and cleared in place, the
    example-level `lm_mask` switches the graph branch and the gate loss on
    only when some position is labelled 1, padded triples get target 0 and
    weight 0, and probabilities are floored before the logarithm. */
module LossMasks {
  import opened Vectors
  import opened Memory
  import opened Composer

  /** The floor `clamp(min=1e-5)` puts under every probability. */
  const PROB_FLOOR: real := 0.00001

  /** `(gate_label != -1).float()`. */
  function RawGateMask(gateLabel: seq<int>): (r: seq<real>)
    ensures |r| == |gateLabel|
    ensures forall i :: 0 <= i < |r| ==> r[i] in {0.0, 1.0} && (r[i] == 1.0 <==> gateLabel[i] != PAD)
  {
    seq(|gateLabel|, i requires 0 <= i < |gateLabel| => if gateLabel[i] != PAD then 1.0 else 0.0)
  }

  /** `gate_label` after `masked_fill_(gate_label == -1, 0)`. */
  function ClearPadding(gateLabel: seq<int>): (r: seq<int>)
    ensures |r| == |gateLabel|
    ensures forall i :: 0 <= i < |r| ==> r[i] != PAD
    ensures forall i :: 0 <= i < |r| ==> (gateLabel[i] == PAD ==> r[i] == 0)
    ensures forall i :: 0 <= i < |r| ==> (gateLabel[i] != PAD ==> r[i] == gateLabel[i])
  {
    seq(|gateLabel|, i requires 0 <= i < |gateLabel| => if gateLabel[i] == PAD then 0 else gateLabel[i])
  }

  function IntSum(s: seq<int>): int
    decreases |s|
  {
    if |s| == 0 then 0 else IntSum(s[..|s| - 1]) + s[|s| - 1]
  }

  /** `lm_mask`: 1 when the cleared labels of the example do not sum to 0. */
  function LmMask(gateLabel: seq<int>): (r: real)
    ensures r in {0.0, 1.0}
  {
    if IntSum(ClearPadding(gateLabel)) != 0 then 1.0 else 0.0
  }

  /** The final `gate_mask`, the weight of each position in the gate loss. */
  function GateMask(gateLabel: seq<int>): (r: seq<real>)
    ensures |r| == |gateLabel|
  {
    var raw := RawGateMask(gateLabel);
    seq(|raw|, i requires 0 <= i < |raw| => LmMask(gateLabel) * raw[i])
  }

  /** `triple_mask`: the weight of each triple in the triple loss. */
  function TripleMask(tripleLabel: seq<int>): (r: seq<real>)
    ensures |r| == |tripleLabel|
    ensures forall t :: 0 <= t < |r| ==> r[t] in {0.0, 1.0}
  {
    seq(|tripleLabel|, t requires 0 <= t < |tripleLabel| => if tripleLabel[t] != PAD then 1.0 else 0.0)
  }

  /** `triple_label * triple_mask`: the target of each triple in the triple loss. */
  function TripleTargets(tripleLabel: seq<int>): (r: seq<int>)
    ensures |r| == |tripleLabel|
    ensures forall t :: 0 <= t < |r| ==> (tripleLabel[t] == PAD ==> r[t] == 0)
    ensures forall t :: 0 <= t < |r| ==> (tripleLabel[t] != PAD ==> r[t] == tripleLabel[t])
  {
    seq(|tripleLabel|, t requires 0 <= t < |tripleLabel| => tripleLabel[t] * (if tripleLabel[t] != PAD then 1 else 0))
  }

  /** `clamp(min=1e-5)` on one probability: positive, so its logarithm is
      finite, and equal to the probability whenever that is not below the floor. */
  function ClampProb(p: real): (r: real)
    ensures r >= PROB_FLOOR && r > 0.0
    ensures p >= PROB_FLOOR ==> r == p
    ensures p < PROB_FLOOR ==> r == PROB_FLOOR
  {
    if p < PROB_FLOOR then PROB_FLOOR else p
  }

  /** Each label of the example is -1 (unlabelled), 0 or 1. */
  predicate GateLabels(gateLabel: seq<int>)
  {
    forall i :: 0 <= i < |gateLabel| ==> -1 <= gateLabel[i] <= 1
  }

  // ---------------------------------------------------------------------
  // Properties

  lemma {:induction false} IntSumZeroIff(s: seq<int>)
    requires forall i :: 0 <= i < |s| ==> 0 <= s[i]
    ensures 0 <= IntSum(s)
    ensures IntSum(s) == 0 <==> forall i :: 0 <= i < |s| ==> s[i] == 0
    decreases |s|
  {
    if |s| > 0 {
      IntSumZeroIff(s[..|s| - 1]);
      assert forall i :: 0 <= i < |s| - 1 ==> s[..|s| - 1][i] == s[i];
    }
  }

  /** Clearing the padding turns the labels into binary loss targets. */
  lemma ClearedLabelsAreBinary(gateLabel: seq<int>)
    requires GateLabels(gateLabel)
    ensures forall i :: 0 <= i < |gateLabel| ==> ClearPadding(gateLabel)[i] in {0, 1}
    ensures forall i :: 0 <= i < |gateLabel| ==> (ClearPadding(gateLabel)[i] == 1 <==> gateLabel[i] == 1)
  {
  }

  /** `lm_mask` is 1 exactly when some position of the example is labelled 1. */
  lemma LmMaskIffSupervised(gateLabel: seq<int>)
    requires GateLabels(gateLabel)
    ensures LmMask(gateLabel) == 1.0 <==> exists i :: 0 <= i < |gateLabel| && gateLabel[i] == 1
    ensures LmMask(gateLabel) == 0.0 <==> forall i :: 0 <= i < |gateLabel| ==> gateLabel[i] != 1
  {
    var cleared := ClearPadding(gateLabel);
    IntSumZeroIff(cleared);
    if exists i :: 0 <= i < |gateLabel| && gateLabel[i] == 1 {
      var i :| 0 <= i < |gateLabel| && gateLabel[i] == 1;
      assert cleared[i] != 0;
    }
  }

  /** A position weighs 1 in the gate loss exactly when it is labelled and
      the example is supervised, and 0 otherwise. */
  lemma GateMaskIff(gateLabel: seq<int>, i: nat)
    requires i < |gateLabel|
    ensures GateMask(gateLabel)[i] in {0.0, 1.0}
    ensures GateMask(gateLabel)[i] == 0.0 <==> gateLabel[i] == PAD || LmMask(gateLabel) == 0.0
  {
    var m, raw := LmMask(gateLabel), RawGateMask(gateLabel)[i];
    assert GateMask(gateLabel)[i] == m * raw;
    assert m == 0.0 || m == 1.0;
    assert raw == 0.0 || raw == 1.0;
  }

  /** An example with no position labelled 1 contributes no gate-loss weight
      anywhere, and its blend is the language-model distribution. */
  lemma UnsupervisedExampleUsesLanguageModelOnly(gateLabel: seq<int>, lm: seq<real>, cv: seq<real>, gate: real)
    requires GateLabels(gateLabel) && |lm| == |cv|
    requires forall i :: 0 <= i < |gateLabel| ==> gateLabel[i] != 1
    ensures GateMask(gateLabel) == Zero(|gateLabel|)
    ensures Hybrid(lm, cv, gate, false, LmMask(gateLabel)) == lm
  {
    LmMaskIffSupervised(gateLabel);
    GateOffGivesLanguageModel(lm, cv, gate, false, LmMask(gateLabel));
  }

  /** A padded triple has target 0 and weight 0 in the triple loss; any
      other triple keeps its label and weighs 1, so labels in {-1, 0, 1}
      give binary targets. */
  lemma PaddedTriplesHaveNoTargetAndNoWeight(tripleLabel: seq<int>, t: nat)
    requires t < |tripleLabel|
    ensures TripleMask(tripleLabel)[t] == 0.0 <==> tripleLabel[t] == PAD
    ensures TripleMask(tripleLabel)[t] == 1.0 <==> tripleLabel[t] != PAD
    ensures TripleTargets(tripleLabel)[t] == if tripleLabel[t] == PAD then 0 else tripleLabel[t]
    ensures -1 <= tripleLabel[t] <= 1 ==> TripleTargets(tripleLabel)[t] in {0, 1}
  {
  }

  // ---------------------------------------------------------------------
  // The in-place step of the training pass

  /** The gate-label handling of the training pass: the weight mask is taken
      before the labels' padding is cleared in place, and `lm_mask` is
      computed from the cleared labels by summing them. */
  method PrepareGateMasks(gateLabel: array<int>) returns (gateMask: seq<real>, lmMask: real)
    modifies gateLabel
    ensures gateLabel[..] == ClearPadding(old(gateLabel[..]))
    ensures lmMask == LmMask(old(gateLabel[..]))
    ensures gateMask == GateMask(old(gateLabel[..]))
  {
    var raw := seq(gateLabel.Length, i requires 0 <= i < gateLabel.Length reads gateLabel =>
                 if gateLabel[i] != PAD then 1.0 else 0.0);
    assert raw == RawGateMask(gateLabel[..]);
    for i := 0 to gateLabel.Length
      invariant forall j :: 0 <= j < i ==> gateLabel[j] == ClearPadding(old(gateLabel[..]))[j]
      invariant forall j :: i <= j < gateLabel.Length ==> gateLabel[j] == old(gateLabel[j])
    {
      if gateLabel[i] == PAD {
        gateLabel[i] := 0;
      }
    }
    assert gateLabel[..] == ClearPadding(old(gateLabel[..]));
    var sum := 0;
    for i := 0 to gateLabel.Length
      invariant sum == IntSum(gateLabel[..i])
    {
      assert gateLabel[..i + 1][..i] == gateLabel[..i];
      sum := sum + gateLabel[i];
    }
    assert gateLabel[..gateLabel.Length] == gateLabel[..];
    lmMask := if sum != 0 then 1.0 else 0.0;
    gateMask := seq(|raw|, i requires 0 <= i < |raw| => lmMask * raw[i]);
  }
}
