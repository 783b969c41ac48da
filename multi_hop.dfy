/** `multi_hop`: per-triple relevance scores are propagated into per-concept
    scores along head-to-tail edges for a fixed number of hops, and the hop
    results are summed on top of a -1e5 offset at the distance-0 slots.
    One decoding position of one example: every tensor operation of the
    source acts on each position independently. */
module MultiHop {
  import opened Vectors
  import opened TensorOps
  import opened Memory

  /** The value `final_mask * -1e5` takes at a distance-0 slot. */
  const OFFSET: real := -100000.0

  /** The arguments of `multi_hop` for one decoding position: `tripleProb[t]`
      is triple `t`'s relevance score, `distance[v]` concept `v`'s hop
      distance from the source concepts, and `aggregation` the `method`
      string (`"max"` or `"avg"`). */
  datatype Propagation = Propagation(
    tripleProb: seq<real>,
    distance: seq<int>,
    triples: Triples,
    conceptLabel: seq<int>,
    gamma: real,
    aggregation: string)
  {
    function Mem(): nat
    {
      |distance|
    }

    predicate WellFormed()
    {
      && triples.WellFormed(|distance|)
      && |tripleProb| == triples.Size()
      && |conceptLabel| == |distance|
    }
  }

  /** `final_mask`: 1 at every distance-0 slot, whether valid or padded. */
  function SourceMask(distance: seq<int>): seq<real>
  {
    seq(|distance|, v requires 0 <= v < |distance| => if distance[v] == 0 then 1.0 else 0.0)
  }

  /** `masked_fill(concept_label == -1, 0)` on a per-concept vector. */
  function MaskInvalid(s: seq<real>, conceptLabel: seq<int>): seq<real>
    requires |s| == |conceptLabel|
  {
    seq(|s|, v requires 0 <= v < |s| => if conceptLabel[v] == PAD then 0.0 else s[v])
  }

  /** The hop-0 vector `init_mask`. */
  function InitScores(p: Propagation): seq<real>
    requires p.WellFormed()
  {
    MaskInvalid(SourceMask(p.distance), p.conceptLabel)
  }

  /** `triple_head_score`: the score of each triple's head, zeroed at padded triples. */
  function HeadScores(s: seq<real>, p: Propagation): seq<real>
    requires p.WellFormed() && |s| == p.Mem()
  {
    var g := p.triples;
    seq(g.Size(), t requires 0 <= t < g.Size() => if g.labels[t] == PAD then 0.0 else s[g.head[t]])
  }

  /** `update_value = triple_head_score * gamma + triple_prob`. */
  function UpdateValues(s: seq<real>, p: Propagation): (u: seq<real>)
    requires p.WellFormed() && |s| == p.Mem()
    ensures |u| == p.triples.Size()
  {
    var head := HeadScores(s, p);
    seq(|head|, t requires 0 <= t < |head| => head[t] * p.gamma + p.tripleProb[t])
  }

  /** Slot `v` of the zero-initialised `out` buffer after the scatter the
      `aggregation` string selects; any other string leaves it at zero. */
  function Aggregated(vals: seq<real>, p: Propagation, v: int): real
    requires p.WellFormed() && |vals| == p.triples.Size()
  {
    if p.aggregation == "max" then MaxInto(0.0, vals, p.triples.tail, v, |vals|)
    else if p.aggregation == "avg" then MeanInto(0.0, vals, p.triples.tail, v)
    else 0.0
  }

  /** One hop: aggregate into the tail slots, then zero the invalid slots. */
  function Hop(s: seq<real>, p: Propagation): (r: seq<real>)
    requires p.WellFormed() && |s| == p.Mem()
    ensures |r| == p.Mem()
  {
    var vals := UpdateValues(s, p);
    MaskInvalid(seq(p.Mem(), v requires 0 <= v < p.Mem() => Aggregated(vals, p, v)), p.conceptLabel)
  }

  /** `concept_probs[k]`. */
  function HopScores(p: Propagation, k: nat): (r: seq<real>)
    requires p.WellFormed()
    ensures |r| == p.Mem()
    decreases k
  {
    if k == 0 then InitScores(p) else Hop(HopScores(p, k - 1), p)
  }

  /** Slot `v` of the sum of hops `1 .. k`. */
  function HopTotal(p: Propagation, v: int, k: nat): real
    requires p.WellFormed() && 0 <= v < p.Mem()
    decreases k
  {
    if k == 0 then 0.0 else HopTotal(p, v, k - 1) + HopScores(p, k)[v]
  }

  /** The result of `multi_hop` with `iteration` hops. */
  function Scores(p: Propagation, iteration: nat): (r: seq<real>)
    requires p.WellFormed()
    ensures |r| == p.Mem()
  {
    var mask := SourceMask(p.distance);
    seq(p.Mem(), v requires 0 <= v < p.Mem() => mask[v] * OFFSET + HopTotal(p, v, iteration))
  }

  // ---------------------------------------------------------------------
  // Properties of one hop

  /** The hop-0 vector is 1 exactly at the valid distance-0 slots and 0 elsewhere. */
  lemma InitialScoresIndicateValidSources(p: Propagation, v: nat)
    requires p.WellFormed() && v < p.Mem()
    ensures HopScores(p, 0)[v] == 1.0 <==> p.distance[v] == 0 && p.conceptLabel[v] != PAD
    ensures HopScores(p, 0)[v] == 0.0 <==> !(p.distance[v] == 0 && p.conceptLabel[v] != PAD)
  {
  }

  /** Invalid concept slots are zero in every hop vector. */
  lemma InvalidSlotsStayZero(p: Propagation, k: nat, v: nat)
    requires p.WellFormed() && v < p.Mem() && p.conceptLabel[v] == PAD
    ensures HopScores(p, k)[v] == 0.0
  {
  }

  /** Under "max", a valid slot's next hop is at least the update value of
      every triple pointing at it, and at least the zero of `out`. */
  lemma MaxHopCoversIncomingTriples(s: seq<real>, p: Propagation, t: nat)
    requires p.WellFormed() && |s| == p.Mem() && t < p.triples.Size()
    requires p.aggregation == "max" && p.conceptLabel[p.triples.tail[t]] != PAD
    ensures UpdateValues(s, p)[t] <= Hop(s, p)[p.triples.tail[t]]
    ensures 0.0 <= Hop(s, p)[p.triples.tail[t]]
  {
    var vals, v := UpdateValues(s, p), p.triples.tail[t];
    MaxIntoAtLeastEntries(0.0, vals, p.triples.tail, v, |vals|);
    MaxIntoAtLeastInit(0.0, vals, p.triples.tail, v, |vals|);
  }

  /** A slot that no triple has as its tail is zero after every hop. */
  lemma UntargetedSlotsStayZero(p: Propagation, k: nat, v: nat)
    requires p.WellFormed() && v < p.Mem() && k >= 1
    requires Untargeted(p.triples.tail, v, p.triples.Size())
    ensures HopScores(p, k)[v] == 0.0
  {
    var vals := UpdateValues(HopScores(p, k - 1), p);
    UntargetedSlotUnchanged(0.0, vals, p.triples.tail, v, |vals|);
  }

  /** An `aggregation` string other than "max" and "avg" makes every hop
      after the first vector all zero. */
  lemma UnknownAggregationHopsAreZero(p: Propagation, k: nat)
    requires p.WellFormed() && k >= 1
    requires p.aggregation != "max" && p.aggregation != "avg"
    ensures HopScores(p, k) == Zero(p.Mem())
  {
  }

  /** When exactly one triple `t0` has tail `v` and its update value is not
      negative, "max" and "avg" aggregation give slot `v` the same value:
      that update value (or 0 at an invalid slot). */
  lemma MaxAndMeanAgreeOnSingleTriple(p: Propagation, s: seq<real>, v: nat, t0: nat)
    requires p.WellFormed() && |s| == p.Mem() && v < p.Mem() && t0 < p.triples.Size()
    requires forall t :: 0 <= t < p.triples.Size() ==> (p.triples.tail[t] == v <==> t == t0)
    requires UpdateValues(s, p)[t0] >= 0.0
    ensures Hop(s, p.(aggregation := "max"))[v] == Hop(s, p.(aggregation := "avg"))[v]
    ensures Hop(s, p.(aggregation := "max"))[v] == if p.conceptLabel[v] == PAD then 0.0 else UpdateValues(s, p)[t0]
  {
    var pMax, pAvg := p.(aggregation := "max"), p.(aggregation := "avg");
    var vals := UpdateValues(s, p);
    assert UpdateValues(s, pMax) == vals && UpdateValues(s, pAvg) == vals;
    SingleEntryReductions(0.0, vals, p.triples.tail, v, t0, |vals|);
  }

  lemma MeanBound(sum: real, count: real, b: real)
    requires 0.0 <= b && 0.0 <= sum && 0.0 <= count
    requires sum <= b * count
    ensures 0.0 <= sum / ClampMinOne(count) <= b
  {
    if count < 1.0 {
      ScaleAtMost(b, count);
      assert sum / ClampMinOne(count) == sum;
    } else {
      DivBounds(sum, count, b);
    }
  }

  /** A non-negative sum divided by the clamped count stays non-negative. */
  lemma MeanNonNegative(sum: real, count: real)
    requires 0.0 <= sum
    ensures 0.0 <= sum / ClampMinOne(count)
  {
    DivBounds(sum, ClampMinOne(count), sum);
    assert sum <= sum * ClampMinOne(count) by {
      MulNonNegative(sum, ClampMinOne(count) - 1.0);
    }
  }

  /** With non-negative relevance scores and decay, every hop vector is non-negative. */
  lemma {:induction false} HopScoresNonNegative(p: Propagation, k: nat)
    requires p.WellFormed() && 0.0 <= p.gamma
    requires forall t :: 0 <= t < |p.tripleProb| ==> 0.0 <= p.tripleProb[t]
    ensures forall v :: 0 <= v < p.Mem() ==> 0.0 <= HopScores(p, k)[v]
  {
    if k > 0 {
      HopScoresNonNegative(p, k - 1);
      var s := HopScores(p, k - 1);
      var vals := UpdateValues(s, p);
      forall t | 0 <= t < |vals|
        ensures 0.0 <= vals[t]
      {
        assert vals[t] == HeadScores(s, p)[t] * p.gamma + p.tripleProb[t];
        MulNonNegative(HeadScores(s, p)[t], p.gamma);
      }
      forall v | 0 <= v < p.Mem()
        ensures 0.0 <= Aggregated(vals, p, v)
      {
        if p.aggregation == "max" {
          MaxIntoAtLeastInit(0.0, vals, p.triples.tail, v, |vals|);
        } else if p.aggregation == "avg" {
          AddIntoNonNegative(vals, p.triples.tail, v, |vals|);
          MeanNonNegative(AddInto(0.0, vals, p.triples.tail, v, |vals|),
                          AddInto(0.0, Ones(|vals|), p.triples.tail, v, |vals|));
        }
      }
    }
  }

  /** A triple's update value from head scores in `[0, c]` lies in `[0, c + 1]`
      when its relevance score and the decay lie in [0, 1]. */
  lemma UpdateValueBound(s: seq<real>, p: Propagation, t: nat, c: real)
    requires p.WellFormed() && |s| == p.Mem() && t < p.triples.Size()
    requires 0.0 <= p.gamma <= 1.0 && 0.0 <= p.tripleProb[t] <= 1.0
    requires forall v :: 0 <= v < |s| ==> 0.0 <= s[v] <= c
    requires 0.0 <= c
    ensures 0.0 <= UpdateValues(s, p)[t] <= c + 1.0
  {
    var head := HeadScores(s, p)[t];
    assert 0.0 <= head <= c by {
      if p.triples.labels[t] != PAD {
        assert head == s[p.triples.head[t]];
      }
    }
    assert UpdateValues(s, p)[t] == head * p.gamma + p.tripleProb[t];
    ScaleAtMost(head, p.gamma);
    assert head * p.gamma <= head;
    assert head <= c;
    assert 0.0 <= head * p.gamma <= c;
    assert 0.0 <= head * p.gamma + p.tripleProb[t] <= c + 1.0;
  }

  /** With relevance scores and decay in [0, 1], hop `k` lies in `[0, k + 1]`. */
  lemma {:induction false} HopScoresBounded(p: Propagation, k: nat)
    requires p.WellFormed() && 0.0 <= p.gamma <= 1.0
    requires forall t :: 0 <= t < |p.tripleProb| ==> 0.0 <= p.tripleProb[t] <= 1.0
    ensures forall v :: 0 <= v < p.Mem() ==> 0.0 <= HopScores(p, k)[v] <= (k + 1) as real
  {
    if k > 0 {
      HopScoresBounded(p, k - 1);
      var s := HopScores(p, k - 1);
      var vals := UpdateValues(s, p);
      var b := (k + 1) as real;
      forall t | 0 <= t < |vals|
        ensures 0.0 <= vals[t] <= b
      {
        UpdateValueBound(s, p, t, k as real);
      }
      forall v | 0 <= v < p.Mem()
        ensures 0.0 <= Aggregated(vals, p, v) <= b
      {
        if p.aggregation == "max" {
          MaxIntoBounds(0.0, vals, p.triples.tail, v, |vals|, b);
        } else if p.aggregation == "avg" {
          AddIntoBounds(vals, p.triples.tail, v, |vals|, 0.0, b);
          AddIntoNonNegative(Ones(|vals|), p.triples.tail, v, |vals|);
          MeanBound(AddInto(0.0, vals, p.triples.tail, v, |vals|),
                    AddInto(0.0, Ones(|vals|), p.triples.tail, v, |vals|), b);
        }
      }
    }
  }

  // ---------------------------------------------------------------------
  // Properties of the accumulated result

  lemma {:induction false} HopTotalBounded(p: Propagation, v: nat, k: nat, b: real)
    requires p.WellFormed() && v < p.Mem() && 0.0 <= p.gamma <= 1.0
    requires forall t :: 0 <= t < |p.tripleProb| ==> 0.0 <= p.tripleProb[t] <= 1.0
    requires (k + 1) as real <= b
    ensures 0.0 <= HopTotal(p, v, k) <= k as real * b
  {
    if k > 0 {
      HopTotalBounded(p, v, k - 1, b);
      HopScoresBounded(p, k);
      var h := HopScores(p, k)[v];
      assert 0.0 <= h <= b;
      assert HopTotal(p, v, k) == HopTotal(p, v, k - 1) + h;
      assert k as real * b == (k - 1) as real * b + b;
    }
  }

  lemma {:induction false} HopTotalOfZeroHops(p: Propagation, v: nat, k: nat)
    requires p.WellFormed() && v < p.Mem()
    requires forall j :: 1 <= j <= k ==> HopScores(p, j)[v] == 0.0
    ensures HopTotal(p, v, k) == 0.0
  {
    if k > 0 {
      HopTotalOfZeroHops(p, v, k - 1);
    }
  }

  /** The offset lands on every distance-0 slot, valid or not: an invalid
      slot's result is -1e5 if its distance is 0 and 0 otherwise. */
  lemma InvalidSlotScore(p: Propagation, iteration: nat, v: nat)
    requires p.WellFormed() && v < p.Mem() && p.conceptLabel[v] == PAD
    ensures Scores(p, iteration)[v] == if p.distance[v] == 0 then OFFSET else 0.0
  {
    HopTotalOfZeroHops(p, v, iteration);
  }

  /** The hop-0 indicator is not part of the result: a slot no triple points
      to scores exactly -1e5 if its distance is 0 (even a valid source) and 0
      otherwise. */
  lemma UntargetedSlotScore(p: Propagation, iteration: nat, v: nat)
    requires p.WellFormed() && v < p.Mem()
    requires Untargeted(p.triples.tail, v, p.triples.Size())
    ensures Scores(p, iteration)[v] == if p.distance[v] == 0 then OFFSET else 0.0
  {
    forall j | 1 <= j <= iteration
      ensures HopScores(p, j)[v] == 0.0
    {
      UntargetedSlotsStayZero(p, j, v);
    }
    HopTotalOfZeroHops(p, v, iteration);
  }

  /** With an unknown `aggregation` string the result is the offset alone. */
  lemma UnknownAggregationLeavesOffset(p: Propagation, iteration: nat, v: nat)
    requires p.WellFormed() && v < p.Mem()
    requires p.aggregation != "max" && p.aggregation != "avg"
    ensures Scores(p, iteration)[v] == if p.distance[v] == 0 then OFFSET else 0.0
  {
    forall j | 1 <= j <= iteration
      ensures HopScores(p, j)[v] == 0.0
    {
      UnknownAggregationHopsAreZero(p, j);
    }
    HopTotalOfZeroHops(p, v, iteration);
  }

  /** With relevance scores and decay in [0, 1] and at most 300 hops, every
      distance-0 slot scores strictly below every other slot: the offset
      outweighs anything the hops can add. */
  lemma SourcesRankBelowOthers(p: Propagation, iteration: nat, u: nat, w: nat)
    requires p.WellFormed() && u < p.Mem() && w < p.Mem() && iteration <= 300
    requires 0.0 <= p.gamma <= 1.0
    requires forall t :: 0 <= t < |p.tripleProb| ==> 0.0 <= p.tripleProb[t] <= 1.0
    requires p.distance[u] == 0 && p.distance[w] != 0
    ensures Scores(p, iteration)[u] < Scores(p, iteration)[w]
  {
    HopTotalBounded(p, u, iteration, 301.0);
    HopTotalBounded(p, w, iteration, 301.0);
  }

  // ---------------------------------------------------------------------
  // Two small examples

  /** Three concepts, concept 0 the only source, triples 0 -> 1 and 0 -> 2
      with relevance 0.5 and 0.3, decay 0.8, one hop: the source's hop-0
      score of 1 is decayed into both tails (0.8 + 0.5 and 0.8 + 0.3), and
      the source itself ends at -1e5, below both. */
  lemma WorkedExample()
    ensures
      var p := Propagation([0.5, 0.3], [0, 1, 1], Triples([0, 0], [1, 2], [1, 1]), [1, 1, 1], 0.8, "max");
      p.WellFormed() && Scores(p, 1) == [OFFSET, 1.3, 1.1]
  {
  }

  /** "avg" divides by every triple that points to the slot, padded ones
      included: a padded triple with zero relevance and tail 1 halves the
      value a lone valid triple 0 -> 1 brings, where "max" keeps it. */
  lemma PaddedTripleCountsInMean()
    ensures
      var p := Propagation([0.5, 0.0], [0, 1], Triples([0, 0], [1, 1], [1, PAD]), [1, 1], 0.8, "avg");
      && p.WellFormed()
      && HopScores(p, 1)[1] == 0.65
      && HopScores(p.(aggregation := "max"), 1)[1] == 1.3
  {
    var p := Propagation([0.5, 0.0], [0, 1], Triples([0, 0], [1, 1], [1, PAD]), [1, 1], 0.8, "avg");
    assert InitScores(p) == [1.0, 0.0];
    assert UpdateValues(InitScores(p), p) == [1.3, 0.0];
    assert Ones(2) == [1.0, 1.0];
    assert AddInto(0.0, [1.3, 0.0], [1, 1], 1, 2) == 1.3;
    assert AddInto(0.0, Ones(2), [1, 1], 1, 2) == 2.0;
    assert HopScores(p, 1)[1] == MeanInto(0.0, [1.3, 0.0], [1, 1], 1);
    var q := p.(aggregation := "max");
    assert InitScores(q) == [1.0, 0.0];
    assert UpdateValues(InitScores(q), q) == [1.3, 0.0];
    assert MaxInto(0.0, [1.3, 0.0], [1, 1], 1, 2) == 1.3;
    assert HopScores(q, 1)[1] == MaxInto(0.0, [1.3, 0.0], [1, 1], 1, 2);
  }

  // ---------------------------------------------------------------------
  // The method as the source runs it

  /** One pass of the hop loop: gathers each triple's head score into a
      fresh buffer, zeroes it at padded triples, forms the update values,
      scatters them into a zero `out` buffer and zeroes the invalid slots. */
  method PropagateOnce(nodeScore: seq<real>, p: Propagation) returns (next: seq<real>)
    requires p.WellFormed() && |nodeScore| == p.Mem()
    ensures next == Hop(nodeScore, p)
  {
    var mem, n := p.Mem(), p.triples.Size();
    var tripleHeadScore := new real[n](t requires 0 <= t < n => nodeScore[p.triples.head[t]]);
    MaskedFill(tripleHeadScore, seq(n, t requires 0 <= t < n => p.triples.labels[t] == PAD), 0.0);
    var headScore := tripleHeadScore[..];
    assert headScore == HeadScores(nodeScore, p);
    var updateValue := seq(n, t requires 0 <= t < n => headScore[t] * p.gamma + p.tripleProb[t]);
    assert updateValue == UpdateValues(nodeScore, p);

    var out := new real[mem](_ => 0.0);
    if p.aggregation == "max" {
      ScatterMax(updateValue, p.triples.tail, out);
    } else if p.aggregation == "avg" {
      ScatterMean(updateValue, p.triples.tail, out);
    }
    MaskedFill(out, seq(mem, v requires 0 <= v < mem => p.conceptLabel[v] == PAD), 0.0);
    next := out[..];
  }

  /** The start of `multi_hop`: `init_mask` is 1 at distance-0 slots, its
      copy `final_mask` is taken, and then `init_mask` is zeroed at invalid
      slots, both in place. */
  method InitialMasks(distance: seq<int>, conceptLabel: seq<int>) returns (finalMask: seq<real>, initMask: seq<real>)
    requires |conceptLabel| == |distance|
    ensures finalMask == SourceMask(distance)
    ensures initMask == MaskInvalid(finalMask, conceptLabel)
  {
    var mem := |distance|;
    var mask := new real[mem](_ => 0.0);
    MaskedFill(mask, seq(mem, v requires 0 <= v < mem => distance[v] == 0), 1.0);
    finalMask := mask[..];
    MaskedFill(mask, seq(mem, v requires 0 <= v < mem => conceptLabel[v] == PAD), 0.0);
    initMask := mask[..];
  }

  /** The end of `multi_hop`: hops 1 .. `iteration` are added one after the
      other onto `final_mask * -1e5`. */
  method AddHops(p: Propagation, finalMask: seq<real>, conceptProbs: seq<seq<real>>, iteration: nat)
    returns (total: seq<real>)
    requires p.WellFormed() && finalMask == SourceMask(p.distance)
    requires |conceptProbs| == iteration + 1
    requires forall j :: 0 <= j <= iteration ==> conceptProbs[j] == HopScores(p, j)
    ensures total == Scores(p, iteration)
  {
    var mem := p.Mem();
    total := seq(mem, v requires 0 <= v < mem => finalMask[v] * OFFSET);
    for j := 1 to |conceptProbs|
      invariant |total| == mem
      invariant forall v :: 0 <= v < mem ==> total[v] == finalMask[v] * OFFSET + HopTotal(p, v, j - 1)
    {
      assert |conceptProbs[j]| == mem;
      total := Add(total, conceptProbs[j]);
    }
  }

  /** The hop loop of `multi_hop`: `concept_probs` starts as the hop-0
      vector and each pass appends the next hop. */
  method RunHops(p: Propagation, initMask: seq<real>, iteration: nat) returns (conceptProbs: seq<seq<real>>)
    requires p.WellFormed() && initMask == HopScores(p, 0)
    ensures |conceptProbs| == iteration + 1
    ensures forall j :: 0 <= j <= iteration ==> conceptProbs[j] == HopScores(p, j)
  {
    conceptProbs := [initMask];
    for step := 0 to iteration
      invariant |conceptProbs| == step + 1
      invariant forall j :: 0 <= j <= step ==> conceptProbs[j] == HopScores(p, j)
    {
      var next := PropagateOnce(conceptProbs[step], p);
      conceptProbs := conceptProbs + [next];
    }
  }

  /** `multi_hop`: the initial masks, `iteration` hops collected in
      `concept_probs`, and their sum on top of the offset. */
  method MultiHopScores(p: Propagation, iteration: nat) returns (total: seq<real>)
    requires p.WellFormed()
    ensures total == Scores(p, iteration)
  {
    var finalMask, initMask := InitialMasks(p.distance, p.conceptLabel);
    var conceptProbs := RunHops(p, initMask, iteration);
    total := AddHops(p, finalMask, conceptProbs, iteration);
  }
}
