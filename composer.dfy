/** The masking, gather and mixing steps of `autoreg_forward` for one
    decoding position: triple scores are silenced at padded triples, the
    concept distribution is moved into vocabulary space through `vocab_map`,
    and the result is blended with the language-model distribution by the
    gate. The sigmoid and softmax outputs these steps consume are inputs. */
module Composer {
  import opened Vectors
  import opened TensorOps
  import opened Memory
  import opened MultiHop

  /** `triple_score.masked_fill(triple_label == -1, 0)`. */
  function MaskTripleScores(score: seq<real>, labels: seq<int>): (r: seq<real>)
    requires |score| == |labels|
    ensures |r| == |score|
    ensures forall t :: 0 <= t < |r| ==> (labels[t] == PAD ==> r[t] == 0.0)
    ensures forall t :: 0 <= t < |r| ==> (labels[t] != PAD ==> r[t] == score[t])
  {
    seq(|score|, t requires 0 <= t < |score| => if labels[t] == PAD then 0.0 else score[t])
  }

  /** Every vocabulary entry refers to a concept slot. */
  predicate MapsInto(vocabMap: seq<int>, mapMask: seq<int>, mem: nat)
  {
    |vocabMap| == |mapMask| && forall w :: 0 <= w < |vocabMap| ==> 0 <= vocabMap[w] < mem
  }

  /** No two mapped vocabulary entries refer to the same concept slot. */
  predicate MappedOnce(vocabMap: seq<int>, mapMask: seq<int>)
    requires |vocabMap| == |mapMask|
  {
    forall w1, w2 :: 0 <= w1 < w2 < |vocabMap| && mapMask[w1] != 0 && mapMask[w2] != 0 ==> vocabMap[w1] != vocabMap[w2]
  }

  /** `cpt_probs.gather(vocab_map)` followed by `masked_fill_(map_mask == 0, 0)`. */
  function ConceptToVocab(cpt: seq<real>, vocabMap: seq<int>, mapMask: seq<int>): (r: seq<real>)
    requires MapsInto(vocabMap, mapMask, |cpt|)
    ensures |r| == |vocabMap|
    ensures forall w :: 0 <= w < |r| ==> (mapMask[w] == 0 ==> r[w] == 0.0)
    ensures forall w :: 0 <= w < |r| ==> (mapMask[w] != 0 ==> r[w] == cpt[vocabMap[w]])
  {
    seq(|vocabMap|, w requires 0 <= w < |vocabMap| => if mapMask[w] == 0 then 0.0 else cpt[vocabMap[w]])
  }

  /** The gate the blend uses: as predicted at generation, multiplied by
      the example's `lm_mask` in training. */
  function EffectiveGate(gate: real, doGenerate: bool, lmMask: real): real
  {
    if doGenerate then gate else gate * lmMask
  }

  /** `hybrid_probs`: at generation `lm * (1 - gate) + gate * cv`; in training
      the gate is first multiplied by `lm_mask`. */
  function Hybrid(lm: seq<real>, cv: seq<real>, gate: real, doGenerate: bool, lmMask: real): (r: seq<real>)
    requires |lm| == |cv|
    ensures |r| == |lm|
  {
    var g := EffectiveGate(gate, doGenerate, lmMask);
    seq(|lm|, w requires 0 <= w < |lm| => lm[w] * (1.0 - g) + g * cv[w])
  }

  /** A probability distribution over the entries of `s`. */
  predicate Distribution(s: seq<real>)
  {
    (forall i :: 0 <= i < |s| ==> 0.0 <= s[i]) && Sum(s) == 1.0
  }

  // ---------------------------------------------------------------------
  // Padded triples after masking

  /** After masking, a padded triple's update value is zero on every hop:
      its head score and its relevance score are both silenced. */
  lemma MaskedScoresSilencePaddedTriples(score: seq<real>, p: Propagation, s: seq<real>, t: nat)
    requires p.WellFormed() && |s| == p.Mem() && |score| == p.triples.Size()
    requires p.tripleProb == MaskTripleScores(score, p.triples.labels)
    requires t < p.triples.Size() && p.triples.labels[t] == PAD
    ensures UpdateValues(s, p)[t] == 0.0
  {
  }

  /** Two propagations that differ only in where the padded triples point. */
  predicate SameButPaddedEndpoints(p: Propagation, q: Propagation)
  {
    && p.tripleProb == q.tripleProb && p.distance == q.distance && p.conceptLabel == q.conceptLabel
    && p.gamma == q.gamma && p.aggregation == q.aggregation
    && p.triples.labels == q.triples.labels
    && |p.triples.head| == |q.triples.head| == |p.triples.labels|
    && |p.triples.tail| == |q.triples.tail| == |p.triples.labels|
    && forall t :: 0 <= t < |p.triples.labels| && p.triples.labels[t] != PAD ==>
         p.triples.head[t] == q.triples.head[t] && p.triples.tail[t] == q.triples.tail[t]
  }

  /** With masked triple scores and "max" aggregation, padded triples are
      inert: moving their heads and tails anywhere changes no hop vector. */
  lemma {:induction false} PaddedTriplesInertUnderMax(score: seq<real>, p: Propagation, q: Propagation, k: nat)
    requires p.WellFormed() && q.WellFormed() && SameButPaddedEndpoints(p, q)
    requires |score| == p.triples.Size() && p.tripleProb == MaskTripleScores(score, p.triples.labels)
    requires p.aggregation == "max"
    ensures HopScores(p, k) == HopScores(q, k)
  {
    if k > 0 {
      PaddedTriplesInertUnderMax(score, p, q, k - 1);
      var s := HopScores(p, k - 1);
      var vals := UpdateValues(s, p);
      assert HeadScores(s, p) == HeadScores(s, q);
      assert vals == UpdateValues(s, q);
      forall v | 0 <= v < p.Mem()
        ensures Aggregated(vals, p, v) == Aggregated(vals, q, v)
      {
        MaxIgnoresSmallEntries(0.0, vals, p.triples.tail, q.triples.tail, v, |vals|);
      }
      assert Hop(s, p) == Hop(s, q);
    }
  }

  // ---------------------------------------------------------------------
  // Moving the concept distribution into vocabulary space

  lemma {:induction false} SumUpdate(s: seq<real>, c: nat, x: real)
    requires c < |s|
    ensures Sum(s[c := x]) == Sum(s) - s[c] + x
    decreases |s|
  {
    var n := |s| - 1;
    assert s[c := x][..n] == if c < n then s[..n][c := x] else s[..n];
    if c < n {
      SumUpdate(s[..n], c, x);
    }
  }

  lemma {:induction false} SumNonNegative(s: seq<real>)
    requires forall i :: 0 <= i < |s| ==> 0.0 <= s[i]
    ensures 0.0 <= Sum(s)
    decreases |s|
  {
    if |s| > 0 {
      SumNonNegative(s[..|s| - 1]);
    }
  }

  /** Entries of `cv` come from distinct concept slots, so the vocabulary
      side never holds more mass than the concept distribution. */
  lemma {:induction false} VocabMassAtMostConceptMass(cpt: seq<real>, vocabMap: seq<int>, mapMask: seq<int>)
    requires MapsInto(vocabMap, mapMask, |cpt|) && MappedOnce(vocabMap, mapMask)
    requires forall i :: 0 <= i < |cpt| ==> 0.0 <= cpt[i]
    ensures forall w :: 0 <= w < |vocabMap| ==> 0.0 <= ConceptToVocab(cpt, vocabMap, mapMask)[w]
    ensures Sum(ConceptToVocab(cpt, vocabMap, mapMask)) <= Sum(cpt)
    decreases |vocabMap|
  {
    var cv := ConceptToVocab(cpt, vocabMap, mapMask);
    if |vocabMap| == 0 {
      SumNonNegative(cpt);
    } else {
      var n := |vocabMap| - 1;
      var vm, mm := vocabMap[..n], mapMask[..n];
      if mapMask[n] == 0 {
        VocabMassAtMostConceptMass(cpt, vm, mm);
        assert cv[..n] == ConceptToVocab(cpt, vm, mm);
      } else {
        var c := vocabMap[n];
        var rest := cpt[c := 0.0];
        VocabMassAtMostConceptMass(rest, vm, mm);
        assert cv[..n] == ConceptToVocab(rest, vm, mm);
        SumUpdate(cpt, c, 0.0);
      }
    }
  }

  // ---------------------------------------------------------------------
  // The blend

  /** The blend's total mass is the gate-weighted mix of the two masses. */
  lemma HybridMass(lm: seq<real>, cv: seq<real>, gate: real, doGenerate: bool, lmMask: real)
    requires |lm| == |cv|
    ensures var g := EffectiveGate(gate, doGenerate, lmMask);
      Sum(Hybrid(lm, cv, gate, doGenerate, lmMask)) == (1.0 - g) * Sum(lm) + g * Sum(cv)
  {
    GenerationMass(lm, cv, EffectiveGate(gate, doGenerate, lmMask));
  }

  /** The generation blend with gate `g` has mass `(1-g)*mass(lm) + g*mass(cv)`. */
  lemma {:induction false} GenerationMass(lm: seq<real>, cv: seq<real>, g: real)
    requires |lm| == |cv|
    ensures Sum(Hybrid(lm, cv, g, true, 0.0)) == (1.0 - g) * Sum(lm) + g * Sum(cv)
    decreases |lm|
  {
    if |lm| > 0 {
      var n := |lm| - 1;
      GenerationMass(lm[..n], cv[..n], g);
      HybridLastEntry(lm, cv, g, true, 0.0);
      MixStep(Sum(lm[..n]), Sum(cv[..n]), lm[n], cv[n], g, Sum(lm), Sum(cv));
    }
  }

  /** The blend of two non-empty vectors adds its last entry to the blend of their prefixes. */
  lemma HybridLastEntry(lm: seq<real>, cv: seq<real>, gate: real, doGenerate: bool, lmMask: real)
    requires |lm| == |cv| > 0
    ensures var n, g := |lm| - 1, EffectiveGate(gate, doGenerate, lmMask);
      Sum(Hybrid(lm, cv, gate, doGenerate, lmMask))
        == Sum(Hybrid(lm[..n], cv[..n], gate, doGenerate, lmMask)) + (lm[n] * (1.0 - g) + g * cv[n])
  {
    var n := |lm| - 1;
    var h, hn := Hybrid(lm, cv, gate, doGenerate, lmMask), Hybrid(lm[..n], cv[..n], gate, doGenerate, lmMask);
    forall w | 0 <= w < n
      ensures h[w] == hn[w]
    {
    }
    assert h[..n] == hn;
  }

  /** Mixing two sums with weights `1 - g` and `g` distributes over their last terms. */
  lemma MixStep(a: real, b: real, x: real, y: real, g: real, s: real, t: real)
    requires s == a + x && t == b + y
    ensures (1.0 - g) * s + g * t == ((1.0 - g) * a + g * b) + (x * (1.0 - g) + g * y)
  {
  }

  lemma MixBounds(g: real, b: real)
    requires 0.0 <= g <= 1.0 && 0.0 <= b <= 1.0
    ensures 1.0 - g <= (1.0 - g) * 1.0 + g * b <= 1.0
  {
    ScaleAtMost(g, b);
  }

  /** With gate and mask in [0, 1], the gate the blend uses lies in [0, 1]. */
  lemma EffectiveGateInUnit(gate: real, doGenerate: bool, lmMask: real)
    requires 0.0 <= gate <= 1.0 && 0.0 <= lmMask <= 1.0
    ensures 0.0 <= EffectiveGate(gate, doGenerate, lmMask) <= 1.0
  {
    ScaleAtMost(gate, lmMask);
  }

  /** Each entry of the blend is non-negative when both sides are and the
      effective gate lies in [0, 1]. */
  lemma HybridNonNegative(lm: seq<real>, cv: seq<real>, gate: real, doGenerate: bool, lmMask: real)
    requires |lm| == |cv|
    requires forall w :: 0 <= w < |lm| ==> 0.0 <= lm[w] && 0.0 <= cv[w]
    requires 0.0 <= gate <= 1.0 && 0.0 <= lmMask <= 1.0
    ensures forall w :: 0 <= w < |lm| ==> 0.0 <= Hybrid(lm, cv, gate, doGenerate, lmMask)[w]
  {
    var g := EffectiveGate(gate, doGenerate, lmMask);
    EffectiveGateInUnit(gate, doGenerate, lmMask);
    forall w | 0 <= w < |lm|
      ensures 0.0 <= Hybrid(lm, cv, gate, doGenerate, lmMask)[w]
    {
      MulNonNegative(lm[w], 1.0 - g);
      MulNonNegative(g, cv[w]);
    }
  }

  /** With a language-model distribution, a concept distribution moved into
      vocabulary space with every concept mapped at most once, and a gate in
      [0, 1] (times a training mask in [0, 1]), the blend is non-negative and
      its mass lies between `1 - g` and 1; it is exactly 1 when the mapped
      concepts carry all the concept mass. */
  lemma HybridIsDistribution(lm: seq<real>, cpt: seq<real>, vocabMap: seq<int>, mapMask: seq<int>,
                             gate: real, doGenerate: bool, lmMask: real)
    requires Distribution(lm) && Distribution(cpt)
    requires MapsInto(vocabMap, mapMask, |cpt|) && MappedOnce(vocabMap, mapMask) && |lm| == |vocabMap|
    requires 0.0 <= gate <= 1.0 && 0.0 <= lmMask <= 1.0
    ensures var h := Hybrid(lm, ConceptToVocab(cpt, vocabMap, mapMask), gate, doGenerate, lmMask);
      var g := EffectiveGate(gate, doGenerate, lmMask);
      && (forall w :: 0 <= w < |h| ==> 0.0 <= h[w])
      && 1.0 - g <= Sum(h) <= 1.0
      && (Sum(ConceptToVocab(cpt, vocabMap, mapMask)) == 1.0 ==> Sum(h) == 1.0)
  {
    var cv := ConceptToVocab(cpt, vocabMap, mapMask);
    var g := EffectiveGate(gate, doGenerate, lmMask);
    EffectiveGateInUnit(gate, doGenerate, lmMask);
    VocabMassAtMostConceptMass(cpt, vocabMap, mapMask);
    SumNonNegative(cv);
    HybridNonNegative(lm, cv, gate, doGenerate, lmMask);
    HybridMass(lm, cv, gate, doGenerate, lmMask);
    MixBounds(g, Sum(cv));
  }

  /** A closed gate, or a training mask of 0, gives the language-model
      distribution back unchanged. */
  lemma GateOffGivesLanguageModel(lm: seq<real>, cv: seq<real>, gate: real, doGenerate: bool, lmMask: real)
    requires |lm| == |cv|
    requires gate == 0.0 || (!doGenerate && lmMask == 0.0)
    ensures Hybrid(lm, cv, gate, doGenerate, lmMask) == lm
  {
    var g := EffectiveGate(gate, doGenerate, lmMask);
    assert g == 0.0;
    forall w | 0 <= w < |lm|
      ensures Hybrid(lm, cv, gate, doGenerate, lmMask)[w] == lm[w]
    {
      assert lm[w] * (1.0 - g) + g * cv[w] == lm[w];
    }
  }

  /** In training with `lm_mask` equal to 1 the blend is the one used at
      generation. */
  lemma TrainingWithFullMaskMatchesGeneration(lm: seq<real>, cv: seq<real>, gate: real, lmMask: real)
    requires |lm| == |cv|
    ensures Hybrid(lm, cv, gate, false, 1.0) == Hybrid(lm, cv, gate, true, lmMask)
  {
  }
}
