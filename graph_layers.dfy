/** The neighbour aggregation layers of MultiHopGen: `comp_gcn` (messages are
    endpoint vector minus relation vector), its relation-free twin `gcn`, and
    the stacks `multi_layer_comp_gcn` / `multi_layer_gcn` that apply them
    layer after layer. One example at a time; concept vectors are `h`,
    relation vectors (one per triple slot) are `rel`. */
module GraphLayers {
  import opened Vectors
  import opened TensorOps
  import opened Memory

  /** The per-layer maps `W_s`, `W_n` and `W_r` (each an `nn.ModuleList` of
      bias-free linear layers). */
  datatype Weights = Weights(ws: seq<Matrix>, wn: seq<Matrix>, wr: seq<Matrix>)
  {
    /** Layers `0 .. layers - 1` exist in all three lists and map dimension
        `d` to itself. */
    predicate Covers(layers: nat, d: nat)
    {
      && layers <= |ws| && layers <= |wn| && layers <= |wr|
      && forall i :: 0 <= i < layers ==> IsSquare(ws[i], d) && IsSquare(wn[i], d) && IsSquare(wr[i], d)
    }
  }

  /** `mem` concept vectors, one relation vector per triple slot, all of
      dimension `d`, and triples whose endpoints address concept slots. */
  predicate Shaped(h: seq<Vec>, rel: seq<Vec>, g: Triples, d: nat)
  {
    Rows(h, |h|, d) && g.WellFormed(|h|) && Rows(rel, g.Size(), d)
  }

  // ---------------------------------------------------------------------
  // The tensors of one layer, as the source builds them

  /** `concept_hidden.gather(1, index)`: the vector of slot `index[t]` for each triple. */
  function Gather(h: seq<Vec>, index: seq<int>): seq<Vec>
    requires IndicesIn(index, |h|)
  {
    seq(|index|, t requires 0 <= t < |index| => h[index[t]])
  }

  /** `x.masked_fill(triple_label == -1, 0)` on per-triple rows. */
  function MaskRows(x: seq<Vec>, labels: seq<int>, d: nat): seq<Vec>
    requires |labels| == |x|
  {
    seq(|x|, t requires 0 <= t < |x| => if labels[t] == PAD then Zero(d) else x[t])
  }

  function NegRows(x: seq<Vec>): seq<Vec>
  {
    seq(|x|, t requires 0 <= t < |x| => Neg(x[t]))
  }

  /** A bias-free linear layer applied to every row. */
  function ApplyRows(w: Matrix, xs: seq<Vec>, d: nat): (r: seq<Vec>)
    requires IsSquare(w, d) && Rows(xs, |xs|, d)
    ensures Rows(r, |xs|, d)
  {
    seq(|xs|, t requires 0 <= t < |xs| => Apply(w, xs[t]))
  }

  /** `count`: one per triple, zeroed at padded triples. */
  function ValidOnes(labels: seq<int>): seq<real>
  {
    seq(|labels|, t requires 0 <= t < |labels| => if labels[t] == PAD then 0.0 else 1.0)
  }

  /** `o`: the vectors of the triples' `index` endpoints, zeroed at padded triples. */
  function Endpoints(h: seq<Vec>, index: seq<int>, g: Triples, d: nat): (o: seq<Vec>)
    requires Rows(h, |h|, d) && IndicesIn(index, |h|) && |index| == g.Size()
    ensures Rows(o, g.Size(), d)
  {
    MaskRows(Gather(h, index), g.labels, d)
  }

  /** `- relation_hidden.masked_fill(triple_label == -1, 0)`. */
  function NegRelations(rel: seq<Vec>, g: Triples, d: nat): (r: seq<Vec>)
    requires Rows(rel, g.Size(), d)
    ensures Rows(r, g.Size(), d)
  {
    NegRows(MaskRows(rel, g.labels, d))
  }

  /** `update_node[v]` after the four scatter-adds of `comp_gcn`: endpoint
      vectors and negated relations into the tail slots, then into the head
      slots. */
  function NeighbourSum(h: seq<Vec>, rel: seq<Vec>, g: Triples, d: nat, v: int): (r: Vec)
    requires Shaped(h, rel, g, d)
    ensures |r| == d
  {
    var n := g.Size();
    var negRel := NegRelations(rel, g, d);
    var intoTails := AddRowsInto(AddRowsInto(Zero(d), Endpoints(h, g.head, g, d), g.tail, v, n), negRel, g.tail, v, n);
    AddRowsInto(AddRowsInto(intoTails, Endpoints(h, g.tail, g, d), g.head, v, n), negRel, g.head, v, n)
  }

  /** `update_hidden[v]` after the two scatter-adds of `gcn`. */
  function PlainNeighbourSum(h: seq<Vec>, g: Triples, d: nat, v: int): (r: Vec)
    requires Rows(h, |h|, d) && g.WellFormed(|h|)
    ensures |r| == d
  {
    var n := g.Size();
    var intoTails := AddRowsInto(Zero(d), Endpoints(h, g.head, g, d), g.tail, v, n);
    AddRowsInto(intoTails, Endpoints(h, g.tail, g, d), g.head, v, n)
  }

  /** `count_out[v]`: the masked ones scattered into the tail slots, then
      into the head slots. */
  function Degree(g: Triples, v: int): real
    requires |g.head| == g.Size() && |g.tail| == g.Size()
  {
    var n := g.Size();
    AddInto(AddInto(0.0, ValidOnes(g.labels), g.tail, v, n), ValidOnes(g.labels), g.head, v, n)
  }

  /** `ReLU(W_s(h_v) + W_n(agg) / clamp(count, min=1))` for one node. */
  function Combine(hv: Vec, agg: Vec, count: real, w: Weights, i: nat, d: nat): (r: Vec)
    requires w.Covers(i + 1, d) && |hv| == d && |agg| == d
    ensures |r| == d
    ensures forall k :: 0 <= k < d ==> r[k] >= 0.0
  {
    Relu(Add(Apply(w.ws[i], hv), DivBy(Apply(w.wn[i], agg), ClampMinOne(count))))
  }

  /** The node output of `comp_gcn` at layer `i`. */
  function LayerNodes(h: seq<Vec>, rel: seq<Vec>, g: Triples, w: Weights, i: nat, d: nat): (r: seq<Vec>)
    requires Shaped(h, rel, g, d) && w.Covers(i + 1, d)
    ensures Rows(r, |h|, d)
  {
    seq(|h|, v requires 0 <= v < |h| => Combine(h[v], NeighbourSum(h, rel, g, d, v), Degree(g, v), w, i, d))
  }

  /** The relation output of `comp_gcn` at layer `i`: `W_r` alone. */
  function LayerRelations(rel: seq<Vec>, w: Weights, i: nat, d: nat): (r: seq<Vec>)
    requires Rows(rel, |rel|, d) && w.Covers(i + 1, d)
    ensures Rows(r, |rel|, d)
  {
    ApplyRows(w.wr[i], rel, d)
  }

  /** The output of `gcn` at layer `i`. */
  function GcnLayerNodes(h: seq<Vec>, g: Triples, w: Weights, i: nat, d: nat): (r: seq<Vec>)
    requires Rows(h, |h|, d) && g.WellFormed(|h|) && w.Covers(i + 1, d)
    ensures Rows(r, |h|, d)
  {
    seq(|h|, v requires 0 <= v < |h| => Combine(h[v], PlainNeighbourSum(h, g, d, v), Degree(g, v), w, i, d))
  }

  /** `multi_layer_comp_gcn` with `n` layers: layer `i` uses weights `i`. */
  function CompGcnStack(h: seq<Vec>, rel: seq<Vec>, g: Triples, w: Weights, d: nat, n: nat): (r: (seq<Vec>, seq<Vec>))
    requires Shaped(h, rel, g, d) && w.Covers(n, d)
    ensures |r.0| == |h| && Shaped(r.0, r.1, g, d)
    decreases n
  {
    if n == 0 then (h, rel)
    else
      var prev := CompGcnStack(h, rel, g, w, d, n - 1);
      (LayerNodes(prev.0, prev.1, g, w, n - 1, d), LayerRelations(prev.1, w, n - 1, d))
  }

  /** `multi_layer_gcn` with `n` layers: layer `i` uses weights `i`. */
  function GcnStack(h: seq<Vec>, g: Triples, w: Weights, d: nat, n: nat): (r: seq<Vec>)
    requires Rows(h, |h|, d) && g.WellFormed(|h|) && w.Covers(n, d)
    ensures Rows(r, |h|, d)
    decreases n
  {
    if n == 0 then h
    else GcnLayerNodes(GcnStack(h, g, w, d, n - 1), g, w, n - 1, d)
  }

  // ---------------------------------------------------------------------
  // Reference definitions: what a node receives, triple by triple

  /** Coordinate `k` of the messages node `v` receives from the first `n`
      triples: each valid triple with tail `v` sends `h[head] - r`, each
      valid triple with head `v` sends `h[tail] - r` (so a valid self-loop
      sends both), and a padded triple sends nothing. */
  function IncidentMessages(h: seq<Vec>, rel: seq<Vec>, g: Triples, d: nat, v: int, k: nat, n: nat): real
    requires Shaped(h, rel, g, d) && k < d && n <= g.Size()
  {
    if n == 0 then 0.0
    else
      var t := n - 1;
      var received :=
        if g.labels[t] == PAD then 0.0
        else
          (if g.tail[t] == v then h[g.head[t]][k] - rel[t][k] else 0.0)
          + (if g.head[t] == v then h[g.tail[t]][k] - rel[t][k] else 0.0);
      IncidentMessages(h, rel, g, d, v, k, t) + received
  }

  /** The number of valid triples among the first `n` with tail `v`, plus
      the number with head `v`: a valid self-loop at `v` counts twice. */
  function IncidentCount(g: Triples, v: int, n: nat): nat
    requires n <= g.Size() && |g.head| == g.Size() && |g.tail| == g.Size()
  {
    if n == 0 then 0
    else
      var t := n - 1;
      var received :=
        if g.labels[t] == PAD then 0
        else (if g.tail[t] == v then 1 else 0) + (if g.head[t] == v then 1 else 0);
      IncidentCount(g, v, t) + received
  }

  // ---------------------------------------------------------------------
  // The aggregate and the count against the reference

  lemma {:induction false} FourScattersSplit(h: seq<Vec>, rel: seq<Vec>, g: Triples, d: nat, v: int, k: nat, n: nat)
    requires Shaped(h, rel, g, d) && k < d && n <= g.Size()
    ensures
      var negRel := Column(NegRelations(rel, g, d), k);
      AddInto(0.0, Column(Endpoints(h, g.head, g, d), k), g.tail, v, n)
      + AddInto(0.0, negRel, g.tail, v, n)
      + AddInto(0.0, Column(Endpoints(h, g.tail, g, d), k), g.head, v, n)
      + AddInto(0.0, negRel, g.head, v, n)
      == IncidentMessages(h, rel, g, d, v, k, n)
  {
    if n > 0 {
      FourScattersSplit(h, rel, g, d, v, k, n - 1);
    }
  }

  /** The buffer `comp_gcn` divides by the count holds, at node `v`, the sum
      over valid triples with tail `v` of `h[head] - r` plus the sum over
      valid triples with head `v` of `h[tail] - r`; padded triples add zero. */
  lemma NeighbourSumIsIncidentMessages(h: seq<Vec>, rel: seq<Vec>, g: Triples, d: nat, v: int, k: nat)
    requires Shaped(h, rel, g, d) && k < d
    ensures NeighbourSum(h, rel, g, d, v)[k] == IncidentMessages(h, rel, g, d, v, k, g.Size())
  {
    var n := g.Size();
    var fromHeads, fromTails, negRel := Endpoints(h, g.head, g, d), Endpoints(h, g.tail, g, d), NegRelations(rel, g, d);
    var s1 := AddRowsInto(Zero(d), fromHeads, g.tail, v, n);
    var s2 := AddRowsInto(s1, negRel, g.tail, v, n);
    var s3 := AddRowsInto(s2, fromTails, g.head, v, n);
    AddRowsIntoAt(Zero(d), fromHeads, g.tail, v, n, k);
    AddRowsIntoAt(s1, negRel, g.tail, v, n, k);
    AddRowsIntoAt(s2, fromTails, g.head, v, n, k);
    AddRowsIntoAt(s3, negRel, g.head, v, n, k);
    AddIntoShift(s1[k], Column(negRel, k), g.tail, v, n);
    AddIntoShift(s2[k], Column(fromTails, k), g.head, v, n);
    AddIntoShift(s3[k], Column(negRel, k), g.head, v, n);
    FourScattersSplit(h, rel, g, d, v, k, n);
  }

  lemma {:induction false} TwoCountsSplit(g: Triples, v: int, n: nat)
    requires n <= g.Size() && |g.head| == g.Size() && |g.tail| == g.Size()
    ensures AddInto(0.0, ValidOnes(g.labels), g.tail, v, n) + AddInto(0.0, ValidOnes(g.labels), g.head, v, n)
            == IncidentCount(g, v, n) as real
  {
    if n > 0 {
      TwoCountsSplit(g, v, n - 1);
    }
  }

  /** `count_out[v]` is the number of valid triples with tail `v` plus the
      number with head `v`. */
  lemma DegreeIsIncidentCount(g: Triples, v: int)
    requires |g.head| == g.Size() && |g.tail| == g.Size()
    ensures Degree(g, v) == IncidentCount(g, v, g.Size()) as real
  {
    var n := g.Size();
    AddIntoShift(AddInto(0.0, ValidOnes(g.labels), g.tail, v, n), ValidOnes(g.labels), g.head, v, n);
    TwoCountsSplit(g, v, n);
  }

  lemma {:induction false} IncidentCountZeroIff(g: Triples, v: int, n: nat)
    requires n <= g.Size() && |g.head| == g.Size() && |g.tail| == g.Size()
    ensures IncidentCount(g, v, n) == 0
            <==> forall t :: 0 <= t < n && g.labels[t] != PAD ==> g.head[t] != v && g.tail[t] != v
  {
    if n > 0 {
      IncidentCountZeroIff(g, v, n - 1);
    }
  }

  /** A node's count is zero exactly when no valid triple touches it. */
  lemma DegreeZeroIffIsolated(g: Triples, v: int)
    requires |g.head| == g.Size() && |g.tail| == g.Size()
    ensures Degree(g, v) == 0.0 <==> g.Isolated(v)
  {
    DegreeIsIncidentCount(g, v);
    IncidentCountZeroIff(g, v, g.Size());
  }

  lemma {:induction false} IsolatedMessagesVanish(h: seq<Vec>, rel: seq<Vec>, g: Triples, d: nat, v: int, k: nat, n: nat)
    requires Shaped(h, rel, g, d) && k < d && n <= g.Size()
    requires g.Isolated(v)
    ensures IncidentMessages(h, rel, g, d, v, k, n) == 0.0
  {
    if n > 0 {
      IsolatedMessagesVanish(h, rel, g, d, v, k, n - 1);
    }
  }

  /** A node no valid triple touches gets exactly `ReLU(W_s(h_v))`: its
      aggregate is the zero vector, `W_n` maps it to zero and the clamped
      divisor is one. */
  lemma IsolatedNodeKeepsSelfTerm(h: seq<Vec>, rel: seq<Vec>, g: Triples, w: Weights, i: nat, d: nat, v: nat)
    requires Shaped(h, rel, g, d) && w.Covers(i + 1, d) && v < |h|
    requires g.Isolated(v)
    ensures LayerNodes(h, rel, g, w, i, d)[v] == Relu(Apply(w.ws[i], h[v]))
  {
    var agg := NeighbourSum(h, rel, g, d, v);
    forall k | 0 <= k < d
      ensures agg[k] == 0.0
    {
      NeighbourSumIsIncidentMessages(h, rel, g, d, v, k);
      IsolatedMessagesVanish(h, rel, g, d, v, k, g.Size());
    }
    assert agg == Zero(d);
    DegreeZeroIffIsolated(g, v);
    ApplyToZero(w.wn[i], d);
    var selfTerm := Apply(w.ws[i], h[v]);
    assert Add(selfTerm, DivBy(Zero(d), 1.0)) == selfTerm;
  }

  lemma {:induction false} IncidentAgree(h: seq<Vec>, rel1: seq<Vec>, rel2: seq<Vec>, g1: Triples, g2: Triples, d: nat, v: int, k: nat, n: nat)
    requires Shaped(h, rel1, g1, d) && Shaped(h, rel2, g2, d) && k < d && n <= g1.Size()
    requires g1.labels == g2.labels
    requires forall t :: 0 <= t < g1.Size() && g1.labels[t] != PAD ==>
               g1.head[t] == g2.head[t] && g1.tail[t] == g2.tail[t] && rel1[t] == rel2[t]
    ensures IncidentMessages(h, rel1, g1, d, v, k, n) == IncidentMessages(h, rel2, g2, d, v, k, n)
  {
    if n > 0 {
      IncidentAgree(h, rel1, rel2, g1, g2, d, v, k, n - 1);
    }
  }

  lemma {:induction false} CountsAgree(g1: Triples, g2: Triples, v: int, n: nat)
    requires |g1.head| == g1.Size() && |g1.tail| == g1.Size() && |g2.head| == g2.Size() && |g2.tail| == g2.Size()
    requires g1.labels == g2.labels && n <= g1.Size()
    requires forall t :: 0 <= t < g1.Size() && g1.labels[t] != PAD ==> g1.head[t] == g2.head[t] && g1.tail[t] == g2.tail[t]
    ensures IncidentCount(g1, v, n) == IncidentCount(g2, v, n)
  {
    if n > 0 {
      CountsAgree(g1, g2, v, n - 1);
    }
  }

  /** Whatever a padded triple slot holds (its endpoints, its relation
      vector) has no effect on the node outputs of a layer. */
  lemma PaddingIsInert(h: seq<Vec>, rel1: seq<Vec>, rel2: seq<Vec>, g1: Triples, g2: Triples, w: Weights, i: nat, d: nat)
    requires Shaped(h, rel1, g1, d) && Shaped(h, rel2, g2, d) && w.Covers(i + 1, d)
    requires g1.labels == g2.labels
    requires forall t :: 0 <= t < g1.Size() && g1.labels[t] != PAD ==>
               g1.head[t] == g2.head[t] && g1.tail[t] == g2.tail[t] && rel1[t] == rel2[t]
    ensures LayerNodes(h, rel1, g1, w, i, d) == LayerNodes(h, rel2, g2, w, i, d)
  {
    forall v | 0 <= v < |h|
      ensures NeighbourSum(h, rel1, g1, d, v) == NeighbourSum(h, rel2, g2, d, v)
      ensures Degree(g1, v) == Degree(g2, v)
    {
      forall k | 0 <= k < d
        ensures NeighbourSum(h, rel1, g1, d, v)[k] == NeighbourSum(h, rel2, g2, d, v)[k]
      {
        NeighbourSumIsIncidentMessages(h, rel1, g1, d, v, k);
        NeighbourSumIsIncidentMessages(h, rel2, g2, d, v, k);
        IncidentAgree(h, rel1, rel2, g1, g2, d, v, k, g1.Size());
      }
      DegreeIsIncidentCount(g1, v);
      DegreeIsIncidentCount(g2, v);
      CountsAgree(g1, g2, v, g1.Size());
    }
  }

  /** `gcn` is `comp_gcn` with every relation vector zero: the two negated
      relation scatters add nothing. */
  lemma GcnIsCompGcnWithoutRelations(h: seq<Vec>, g: Triples, w: Weights, i: nat, d: nat)
    requires Rows(h, |h|, d) && g.WellFormed(|h|) && w.Covers(i + 1, d)
    ensures GcnLayerNodes(h, g, w, i, d) == LayerNodes(h, ZeroRows(g.Size(), d), g, w, i, d)
  {
    var n, zeros := g.Size(), ZeroRows(g.Size(), d);
    var negRel := NegRelations(zeros, g, d);
    forall t | 0 <= t < n
      ensures negRel[t] == Zero(d)
    {
    }
    forall v | 0 <= v < |h|
      ensures PlainNeighbourSum(h, g, d, v) == NeighbourSum(h, zeros, g, d, v)
    {
      var s1 := AddRowsInto(Zero(d), Endpoints(h, g.head, g, d), g.tail, v, n);
      AddZeroRowsInto(s1, negRel, g.tail, v, n);
      var s3 := AddRowsInto(s1, Endpoints(h, g.tail, g, d), g.head, v, n);
      AddZeroRowsInto(s3, negRel, g.head, v, n);
    }
  }

  /** The relation vectors a stack of `comp_gcn` layers produces do not
      depend on the concept vectors: relations only pass through `W_r`. */
  lemma {:induction false} StackRelationsIgnoreNodes(h1: seq<Vec>, h2: seq<Vec>, rel: seq<Vec>, g: Triples, w: Weights, d: nat, n: nat)
    requires Shaped(h1, rel, g, d) && Shaped(h2, rel, g, d) && w.Covers(n, d)
    ensures CompGcnStack(h1, rel, g, w, d, n).1 == CompGcnStack(h2, rel, g, w, d, n).1
  {
    if n > 0 {
      StackRelationsIgnoreNodes(h1, h2, rel, g, w, d, n - 1);
    }
  }

  /** A stack of `n` layers reads only the weights of layers `0 .. n - 1`:
      two weight lists that agree there give the same result. */
  lemma {:induction false} StackUsesOnlyItsLayers(h: seq<Vec>, rel: seq<Vec>, g: Triples, w1: Weights, w2: Weights, d: nat, n: nat)
    requires Shaped(h, rel, g, d) && w1.Covers(n, d) && w2.Covers(n, d)
    requires forall i :: 0 <= i < n ==> w1.ws[i] == w2.ws[i] && w1.wn[i] == w2.wn[i] && w1.wr[i] == w2.wr[i]
    ensures CompGcnStack(h, rel, g, w1, d, n) == CompGcnStack(h, rel, g, w2, d, n)
  {
    if n > 0 {
      StackUsesOnlyItsLayers(h, rel, g, w1, w2, d, n - 1);
      var prev := CompGcnStack(h, rel, g, w1, d, n - 1);
      assert LayerNodes(prev.0, prev.1, g, w1, n - 1, d) == LayerNodes(prev.0, prev.1, g, w2, n - 1, d);
    }
  }

  /** `multi_layer_gcn` is `multi_layer_comp_gcn` started from zero relation
      vectors, which stay zero because every `W_r` is linear. */
  lemma {:induction false} GcnStackIsCompGcnStackWithoutRelations(h: seq<Vec>, g: Triples, w: Weights, d: nat, n: nat)
    requires Rows(h, |h|, d) && g.WellFormed(|h|) && w.Covers(n, d)
    ensures CompGcnStack(h, ZeroRows(g.Size(), d), g, w, d, n) == (GcnStack(h, g, w, d, n), ZeroRows(g.Size(), d))
  {
    if n > 0 {
      GcnStackIsCompGcnStackWithoutRelations(h, g, w, d, n - 1);
      var prev := GcnStack(h, g, w, d, n - 1);
      GcnIsCompGcnWithoutRelations(prev, g, w, n - 1, d);
      ApplyToZero(w.wr[n - 1], d);
      assert LayerRelations(ZeroRows(g.Size(), d), w, n - 1, d) == ZeroRows(g.Size(), d);
    }
  }

  /** After at least one layer every node coordinate is non-negative. */
  lemma StackNodesNonNegative(h: seq<Vec>, rel: seq<Vec>, g: Triples, w: Weights, d: nat, n: nat)
    requires Shaped(h, rel, g, d) && w.Covers(n, d) && n >= 1
    ensures forall v, k :: 0 <= v < |h| && 0 <= k < d ==> CompGcnStack(h, rel, g, w, d, n).0[v][k] >= 0.0
  {
  }

  // ---------------------------------------------------------------------
  // The layers as the source runs them: zero buffers filled in place

  /** `comp_gcn`: fill `update_node` and `count_out` with scatter-adds over
      the tail slots and then the head slots, and combine. */
  method CompGcn(h: seq<Vec>, rel: seq<Vec>, g: Triples, w: Weights, layerIdx: nat, d: nat)
    returns (nodes: seq<Vec>, relations: seq<Vec>)
    requires Shaped(h, rel, g, d) && w.Covers(layerIdx + 1, d)
    ensures nodes == LayerNodes(h, rel, g, w, layerIdx, d)
    ensures relations == LayerRelations(rel, w, layerIdx, d)
  {
    var mem := |h|;
    var updateNode := new Vec[mem](_ => Zero(d));
    var count := ValidOnes(g.labels);
    var countOut := new real[mem](_ => 0.0);
    var negRel := NegRelations(rel, g, d);

    ScatterAddRows(Endpoints(h, g.head, g, d), g.tail, updateNode, d);
    ScatterAddRows(negRel, g.tail, updateNode, d);
    ScatterAdd(count, g.tail, countOut);

    ScatterAddRows(Endpoints(h, g.tail, g, d), g.head, updateNode, d);
    ScatterAddRows(negRel, g.head, updateNode, d);
    ScatterAdd(count, g.head, countOut);

    var agg, deg := updateNode[..], countOut[..];
    assert forall v :: 0 <= v < mem ==> agg[v] == NeighbourSum(h, rel, g, d, v) && deg[v] == Degree(g, v);
    nodes := seq(mem, v requires 0 <= v < mem => Combine(h[v], agg[v], deg[v], w, layerIdx, d));
    relations := ApplyRows(w.wr[layerIdx], rel, d);
  }

  /** `gcn`: as `comp_gcn` without the relation scatters. */
  method Gcn(h: seq<Vec>, g: Triples, w: Weights, layerIdx: nat, d: nat) returns (nodes: seq<Vec>)
    requires Rows(h, |h|, d) && g.WellFormed(|h|) && w.Covers(layerIdx + 1, d)
    ensures nodes == GcnLayerNodes(h, g, w, layerIdx, d)
  {
    var mem := |h|;
    var updateHidden := new Vec[mem](_ => Zero(d));
    var count := ValidOnes(g.labels);
    var countOut := new real[mem](_ => 0.0);

    ScatterAddRows(Endpoints(h, g.head, g, d), g.tail, updateHidden, d);
    ScatterAdd(count, g.tail, countOut);

    ScatterAddRows(Endpoints(h, g.tail, g, d), g.head, updateHidden, d);
    ScatterAdd(count, g.head, countOut);

    var agg, deg := updateHidden[..], countOut[..];
    assert forall v :: 0 <= v < mem ==> agg[v] == PlainNeighbourSum(h, g, d, v) && deg[v] == Degree(g, v);
    nodes := seq(mem, v requires 0 <= v < mem => Combine(h[v], agg[v], deg[v], w, layerIdx, d));
  }

  /** `multi_layer_comp_gcn`: `layerNumber` layers, layer `i` with weights `i`. */
  method MultiLayerCompGcn(h: seq<Vec>, rel: seq<Vec>, g: Triples, w: Weights, d: nat, layerNumber: nat)
    returns (nodes: seq<Vec>, relations: seq<Vec>)
    requires Shaped(h, rel, g, d) && w.Covers(layerNumber, d)
    ensures (nodes, relations) == CompGcnStack(h, rel, g, w, d, layerNumber)
  {
    nodes, relations := h, rel;
    for i := 0 to layerNumber
      invariant (nodes, relations) == CompGcnStack(h, rel, g, w, d, i)
    {
      nodes, relations := CompGcn(nodes, relations, g, w, i, d);
    }
  }

  /** `multi_layer_gcn`: `layerNumber` layers, layer `i` with weights `i`. */
  method MultiLayerGcn(h: seq<Vec>, g: Triples, w: Weights, d: nat, layerNumber: nat) returns (nodes: seq<Vec>)
    requires Rows(h, |h|, d) && g.WellFormed(|h|) && w.Covers(layerNumber, d)
    ensures nodes == GcnStack(h, g, w, d, layerNumber)
  {
    nodes := h;
    for i := 0 to layerNumber
      invariant nodes == GcnStack(h, g, w, d, i)
    {
      nodes := Gcn(nodes, g, w, i, d);
    }
  }
}
