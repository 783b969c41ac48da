# MultiHopGen graph bookkeeping, in Dafny

MultiHopGen (`scripts/modeling_gpt2.py`) grounds a sequence-to-sequence
generator in a knowledge subgraph. Each example carries:

- a memory of concept slots, with a `distance` from the source concepts and a `concept_label`;
- a list of triples `head -> tail`, each with a `triple_label`.

In both label fields, `-1` marks padding. This project models the index and
mask bookkeeping around the neural parts and proves what it guarantees:

- **Graph layers** (`graph_layers.dfy`). These are `comp_gcn` and `gcn` and
  their stacks `multi_layer_comp_gcn` and `multi_layer_gcn`.
  - Zero buffers are filled in place by scatter-adds over the tail slots and
    then the head slots.
  - The sum is divided by the clamped neighbour count and passed through a ReLU.
  - The methods are proved equal to specification functions.
  - Lemmas relate those functions to a per-triple reference sum. They also
    cover isolated nodes and padding, and the relation-free variant.
- **Multi-hop propagation** (`multi_hop.dfy`). This is `multi_hop`.
  - The hop-0 indicator and `final_mask` are built in place.
  - Each hop gathers head scores, decays them, and scatters them by max or
    mean into a fresh buffer.
  - The hops are summed onto a `-1e5` offset at the distance-0 slots.
- **Composer** (`composer.dfy`). These are the masking, gather and mixing
  steps of `autoreg_forward`:
  - triple scores are zeroed at padded triples;
  - the concept distribution is moved into vocabulary space through
    `vocab_map`/`map_mask`;
  - the gate blends it with the language-model distribution.
- **Loss masks** (`loss_masks.dfy`). This is the gate-label rewrite, `lm_mask`,
  `gate_mask`, the triple mask and targets, and the probability floor of `forward`.
- **Primitives**:
  - `vectors.dfy` holds vectors and bias-free linear maps.
  - `tensor_ops.dfy` holds `masked_fill_` and the `scatter_add`,
    `scatter_max` and `scatter_mean` reductions, writing into a
    caller-supplied `out` buffer.
  - `memory.dfy` holds the triple lists.

Exact reals stand in for float32. One example is modelled at a time. Every
tensor operation of `multi_hop` and of the composer acts on each decoding
position independently, so one position is modelled.

Behaviour as written, which the model follows:

- **The `-1e5` offset lands on distance-0 slots, not on unreached ones**
  (`final_mask` is the distance-0 indicator; lines 171-172, 206). A source
  concept therefore scores about `-1e5`. The hop-0 indicator is never added
  to the result. `UntargetedSlotScore` and `WorkedExample` show this.
  - A 1-hop example with triples `0 -> 1` and `0 -> 2`, scores 0.5 and 0.3,
    and decay 0.8 gives `[-1e5, 1.3, 1.1]`. Concept 1's score is
    `1 * 0.8 + 0.5`, because the source's hop-0 value is 1.
  - So concept 0 does not keep a credit of its own, and it ranks below both
    of the others.
- **Invalid concepts are not removed from the distribution.** An invalid
  concept's score is 0 (or `-1e5` at distance 0), not minus infinity
  (`InvalidSlotScore`). The softmax that follows gives it positive mass.
- **The mean counts padded triples.** `scatter_mean` divides by the number of
  triples that point at a slot, padded ones included.
  `PaddedTripleCountsInMean` shows a padded triple halving a slot's value.
  Under "max" padded triples are inert (`PaddedTriplesInertUnderMax`).
- **The blend need not sum to 1.** Concept mass on slots that no mapped
  vocabulary entry reads is dropped by the gather. That includes invalid
  slots, which the softmax gives positive mass. The blend's mass is then
  `(1-g) + g * mass(cv) < 1` (`HybridMass`, `HybridIsDistribution`).
- **`out` starts at zero and takes part in the reductions.** `scatter_max`
  therefore yields `max(0, values)`, and `scatter_mean` divides
  `out + sum` by the clamped count, in place.

## Model

| member | source | states |
|---|---|---|
| Vectors.ClampMinOne | scripts/modeling_gpt2.py:114 | the divisor `clamp(min=1)` is exactly 1 for a count below 1, so never 0, and equals the count whenever the count is at least 1 |
| Vectors.ApplyToZero | scripts/modeling_gpt2.py:60-64 | a bias-free linear layer maps the zero vector to the zero vector |
| TensorOps.MaskedFill | scripts/modeling_gpt2.py:98 | `masked_fill_` writes `value` exactly where the mask holds and leaves every other entry as it was |
| TensorOps.ScatterAdd | scripts/modeling_gpt2.py:105 | after `scatter_add` into `out`, each slot holds its old value plus the entries addressed to it, in order |
| TensorOps.ScatterAddRows | scripts/modeling_gpt2.py:103-104 | row-valued `scatter_add`: each slot is its old row plus the rows addressed to it, and all rows keep dimension `d` |
| TensorOps.ScatterMax | scripts/modeling_gpt2.py:196 | after `scatter_max` into `out`, each slot is the maximum of its old value and the entries addressed to it |
| TensorOps.ScatterMean | scripts/modeling_gpt2.py:198 | after `scatter_mean` into `out`, each slot is (old value + sum of its entries) / max(number of its entries, 1) |
| TensorOps.AddRowsIntoAt | scripts/modeling_gpt2.py:103-110 | a row scatter-add works coordinate by coordinate, as the scalar one on each column |
| TensorOps.AddIntoShift | scripts/modeling_gpt2.py:103-105 | a scatter-add into a buffer equals the buffer's value plus a scatter-add into zero |
| TensorOps.UntargetedSlotUnchanged | scripts/modeling_gpt2.py:196-198 | a slot no index addresses keeps its initial value under scatter-add and scatter-max |
| TensorOps.UntargetedSlotKeepsMean | scripts/modeling_gpt2.py:198 | a slot no index addresses keeps its initial value under scatter-mean, because its count is 0 and the clamped divisor is 1 |
| TensorOps.MaxIntoAtLeastInit | scripts/modeling_gpt2.py:196 | scatter-max never lowers a slot below the buffer's initial value |
| TensorOps.AddIntoNonNegative | scripts/modeling_gpt2.py:198 | a sum into a zero slot of non-negative addressed entries is non-negative |
| TensorOps.AddZerosInto | scripts/modeling_gpt2.py:105 | scattering zeros changes no slot |
| TensorOps.AddZeroRowsInto | scripts/modeling_gpt2.py:103-104 | scattering zero rows changes no slot |
| TensorOps.MaxIntoBounds | scripts/modeling_gpt2.py:196 | the maximum is at least the buffer's initial value and at most any bound that the initial value and every addressed entry respect, so with `MaxIntoAtLeastEntries` it is the least such bound |
| TensorOps.MaxIntoAtLeastEntries | scripts/modeling_gpt2.py:196 | the maximum is at least every entry addressing the slot |
| TensorOps.MaxIntoAttained | scripts/modeling_gpt2.py:196 | the maximum is attained: it is the buffer's initial value or one of the entries addressing the slot |
| TensorOps.MaxIgnoresSmallEntries | scripts/modeling_gpt2.py:196 | entries not above the buffer's initial value do not change a scatter-max, wherever they point |
| TensorOps.AddIntoBounds | scripts/modeling_gpt2.py:198 | a sum of `c` addressed entries in `[lo, hi]` lies in `[lo*c, hi*c]`, where `c` is the count `scatter_mean` divides by |
| TensorOps.SingleEntryReductions | scripts/modeling_gpt2.py:194-198 | with exactly one entry addressing a slot: the sum adds it once, the maximum compares it once with the buffer, and the count is 1 |
| GraphLayers.Combine | scripts/modeling_gpt2.py:114-115 | `ReLU(W_s h + W_n agg / clamp(count, 1))` has dimension `d` and no negative coordinate |
| GraphLayers.NeighbourSum | scripts/modeling_gpt2.py:100-110 | the aggregation buffer of one node is a vector of dimension `d` |
| GraphLayers.LayerNodes | scripts/modeling_gpt2.py:87-117 | one `comp_gcn` layer gives every node a vector of dimension `d` |
| GraphLayers.LayerRelations | scripts/modeling_gpt2.py:117 | `W_r` maps every relation vector to one of dimension `d` |
| GraphLayers.GcnLayerNodes | scripts/modeling_gpt2.py:127-153 | one `gcn` layer gives every node a vector of dimension `d` |
| GraphLayers.CompGcnStack | scripts/modeling_gpt2.py:82-85 | a `comp_gcn` stack keeps the number of nodes and the shapes of node and relation vectors |
| GraphLayers.GcnStack | scripts/modeling_gpt2.py:122-125 | a `gcn` stack keeps the number of nodes and the dimension of every node vector |
| GraphLayers.NeighbourSumIsIncidentMessages | scripts/modeling_gpt2.py:100-110 | the aggregation buffer at node `v` is the sum over valid triples with tail `v` of `h[head] - r`, plus the sum over valid triples with head `v` of `h[tail] - r`; padded triples add zero |
| GraphLayers.DegreeIsIncidentCount | scripts/modeling_gpt2.py:98-111 | `count_out[v]` is the number of valid triples with tail `v` plus the number with head `v`; a valid self-loop counts twice |
| GraphLayers.DegreeZeroIffIsolated | scripts/modeling_gpt2.py:98-111 | `count_out[v]` is 0 exactly when no valid triple has `v` as head or tail |
| GraphLayers.IsolatedMessagesVanish | scripts/modeling_gpt2.py:100-110 | a node no valid triple touches receives no message |
| GraphLayers.IsolatedNodeKeepsSelfTerm | scripts/modeling_gpt2.py:114-115 | a node no valid triple touches gets exactly `ReLU(W_s(h_v))` |
| GraphLayers.PaddingIsInert | scripts/modeling_gpt2.py:98-111 | two inputs that differ only in what padded triple slots hold (endpoints, relation vectors) give the same node outputs |
| GraphLayers.GcnIsCompGcnWithoutRelations | scripts/modeling_gpt2.py:127-153 | one `gcn` layer equals one `comp_gcn` layer run with all relation vectors zero |
| GraphLayers.StackRelationsIgnoreNodes | scripts/modeling_gpt2.py:82-85 | the relation vectors a `comp_gcn` stack returns do not depend on the concept vectors; relations pass only through `W_r` |
| GraphLayers.StackUsesOnlyItsLayers | scripts/modeling_gpt2.py:82-85 | a stack of `n` layers reads only the weights with index `0 .. n-1` |
| GraphLayers.GcnStackIsCompGcnStackWithoutRelations | scripts/modeling_gpt2.py:82-125 | `multi_layer_gcn` equals `multi_layer_comp_gcn` started from zero relation vectors, and those stay zero |
| GraphLayers.StackNodesNonNegative | scripts/modeling_gpt2.py:115 | after at least one layer every node coordinate is non-negative |
| GraphLayers.CompGcn | scripts/modeling_gpt2.py:87-117 | the buffer-filling `comp_gcn` returns exactly the layer's node vectors and `W_r` applied to every relation vector |
| GraphLayers.Gcn | scripts/modeling_gpt2.py:127-153 | the buffer-filling `gcn` returns exactly the relation-free layer's node vectors |
| GraphLayers.MultiLayerCompGcn | scripts/modeling_gpt2.py:82-85 | the loop applies exactly `layer_number` `comp_gcn` layers, layer `i` with weights `i` |
| GraphLayers.MultiLayerGcn | scripts/modeling_gpt2.py:122-125 | the loop applies exactly `layer_number` `gcn` layers, layer `i` with weights `i` |
| MultiHop.InitialScoresIndicateValidSources | scripts/modeling_gpt2.py:170-175 | the hop-0 vector is 1 exactly at slots with distance 0 and a valid label, and 0 at every other slot |
| MultiHop.Hop | scripts/modeling_gpt2.py:180-199 | one hop gives one value per concept slot |
| MultiHop.HopScores | scripts/modeling_gpt2.py:168-201 | hop `k` gives one value per concept slot |
| MultiHop.Scores | scripts/modeling_gpt2.py:206-210 | the result gives one score per concept slot |
| MultiHop.HopScoresNonNegative | scripts/modeling_gpt2.py:179-201 | with non-negative triple scores and decay, every hop vector is non-negative, under "max", "avg" and any other method string |
| MultiHop.UpdateValueBound | scripts/modeling_gpt2.py:184-193 | with head scores in `[0, c]` and score and decay in [0, 1], a triple's update value `gamma*score[head] + prob` lies in `[0, c+1]`; a padded triple's head score counts as 0 |
| MultiHop.MaxHopCoversIncomingTriples | scripts/modeling_gpt2.py:183-199 | under "max", a valid slot's next hop is at least the update value of every triple pointing at it, and at least 0 |
| MultiHop.InvalidSlotsStayZero | scripts/modeling_gpt2.py:174-199 | an invalid concept slot is 0 in every hop vector |
| MultiHop.UntargetedSlotsStayZero | scripts/modeling_gpt2.py:192-199 | a slot that no triple has as its tail is 0 after every hop |
| MultiHop.UnknownAggregationHopsAreZero | scripts/modeling_gpt2.py:192-199 | a method string other than "max" and "avg" makes every hop after the first all zero |
| MultiHop.MaxAndMeanAgreeOnSingleTriple | scripts/modeling_gpt2.py:183-199 | when exactly one triple points at a slot and its update value `gamma*score[head] + prob` is not negative, "max" and "avg" give that slot the same value, that update value |
| MultiHop.HopScoresBounded | scripts/modeling_gpt2.py:179-201 | with triple scores and decay in [0, 1], hop `k` lies in `[0, k+1]` at every slot |
| MultiHop.HopTotalBounded | scripts/modeling_gpt2.py:206-208 | under the same bounds the sum of hops `1..k` at a slot lies in `[0, k*b]` for any `b >= k+1` |
| MultiHop.InvalidSlotScore | scripts/modeling_gpt2.py:172-208 | an invalid slot's result is `-1e5` if its distance is 0 and 0 otherwise |
| MultiHop.UntargetedSlotScore | scripts/modeling_gpt2.py:179-208 | a slot no triple points at scores exactly `-1e5` at distance 0, even a valid source, and 0 otherwise: the hop-0 indicator is not added |
| MultiHop.UnknownAggregationLeavesOffset | scripts/modeling_gpt2.py:192-208 | with an unknown method string the result is the offset alone |
| MultiHop.SourcesRankBelowOthers | scripts/modeling_gpt2.py:172-208 | with scores and decay in [0, 1] and at most 300 hops, every distance-0 slot scores strictly below every other slot |
| MultiHop.WorkedExample | scripts/modeling_gpt2.py:157-210 | three concepts, triples `0->1` and `0->2` with scores 0.5 and 0.3, decay 0.8, one hop of "max": the result is `[-1e5, 1.3, 1.1]` |
| MultiHop.PaddedTripleCountsInMean | scripts/modeling_gpt2.py:185-198 | a padded triple pointing at a slot halves the value "avg" gives it, while "max" keeps it |
| MultiHop.PropagateOnce | scripts/modeling_gpt2.py:180-199 | one pass of the hop loop (gather, mask, decay, scatter into a fresh zero buffer, mask) yields exactly the next hop vector |
| MultiHop.InitialMasks | scripts/modeling_gpt2.py:170-174 | `final_mask` is copied before the invalid masking: it is the distance-0 indicator, and `init_mask` is it with invalid slots zeroed |
| MultiHop.RunHops | scripts/modeling_gpt2.py:168-201 | `concept_probs` ends with exactly `iteration + 1` vectors, entry `j` being hop `j` |
| MultiHop.AddHops | scripts/modeling_gpt2.py:206-210 | the accumulation loop yields `final_mask * -1e5` plus the sum of hops `1..iteration` |
| MultiHop.MultiHopScores | scripts/modeling_gpt2.py:157-210 | `multi_hop` returns exactly the offset plus hops `1..iteration` |
| Composer.MaskedScoresSilencePaddedTriples | scripts/modeling_gpt2.py:356 | after masking, a padded triple's update value is 0 on every hop |
| Composer.MaskTripleScores | scripts/modeling_gpt2.py:356 | one score per triple: 0 at a padded triple, and the triple's own score at any other |
| Composer.PaddedTriplesInertUnderMax | scripts/modeling_gpt2.py:356 | with masked triple scores and "max", moving the head and tail of padded triples anywhere changes no hop vector |
| Composer.VocabMassAtMostConceptMass | scripts/modeling_gpt2.py:372-374 | when no concept slot is mapped twice, the gathered and masked vocabulary vector is non-negative and carries no more mass than the concept distribution |
| Composer.ConceptToVocab | scripts/modeling_gpt2.py:372-374 | one entry per vocabulary word: 0 where `map_mask` is 0, and the probability of the mapped concept slot elsewhere |
| Composer.Hybrid | scripts/modeling_gpt2.py:383-386 | the blend has one entry per vocabulary word; its mass, sign and gate-off behaviour are the lemmas below |
| Composer.EffectiveGateInUnit | scripts/modeling_gpt2.py:383-386 | with gate and `lm_mask` in [0, 1], the gate the blend uses (`gate`, or `gate * lm_mask` in training) lies in [0, 1] |
| Composer.HybridMass | scripts/modeling_gpt2.py:383-386 | the blend's mass is `(1-g)*mass(lm) + g*mass(cv)`, with `g = gate` at generation and `gate * lm_mask` in training |
| Composer.GenerationMass | scripts/modeling_gpt2.py:383-384 | the generation blend with gate `g` has mass `(1-g)*mass(lm) + g*mass(cv)` |
| Composer.HybridNonNegative | scripts/modeling_gpt2.py:383-386 | with non-negative sides and gate and mask in [0, 1], every entry of the blend is non-negative |
| Composer.HybridIsDistribution | scripts/modeling_gpt2.py:369-386 | from two distributions the blend is non-negative with mass in `[1-g, 1]`, and exactly 1 when the mapped concepts carry all the concept mass |
| Composer.GateOffGivesLanguageModel | scripts/modeling_gpt2.py:383-386 | a gate of 0, or a training `lm_mask` of 0, returns the language-model distribution unchanged |
| Composer.TrainingWithFullMaskMatchesGeneration | scripts/modeling_gpt2.py:383-386 | in training with `lm_mask` 1 the blend is the generation blend |
| LossMasks.ClampProb | scripts/modeling_gpt2.py:276 | a clamped probability is at least `1e-5` (so its logarithm is finite), equals the probability when that is not below the floor, and equals the floor otherwise |
| LossMasks.RawGateMask | scripts/modeling_gpt2.py:247 | one weight per position, 1 exactly where the label is not `-1` and 0 elsewhere |
| LossMasks.ClearPadding | scripts/modeling_gpt2.py:248 | the rewrite keeps the length, writes 0 at every `-1` label, so no `-1` is left, and keeps every other label |
| LossMasks.LmMask | scripts/modeling_gpt2.py:251 | `lm_mask` is 0 or 1 |
| LossMasks.GateMask | scripts/modeling_gpt2.py:252 | one weight per position; `GateMaskIff` states its values |
| LossMasks.TripleMask | scripts/modeling_gpt2.py:277 | one weight per triple, each 0 or 1 |
| LossMasks.TripleTargets | scripts/modeling_gpt2.py:278 | one target per triple: 0 at a padded triple, the label itself at any other |
| LossMasks.ClearedLabelsAreBinary | scripts/modeling_gpt2.py:248 | after the `-1` entries are rewritten to 0, labels in {-1, 0, 1} become binary targets and 1 stays exactly where it was |
| LossMasks.LmMaskIffSupervised | scripts/modeling_gpt2.py:247-251 | `lm_mask` is 1 exactly when some position of the example is labelled 1, and 0 exactly when none is |
| LossMasks.GateMaskIff | scripts/modeling_gpt2.py:247-252 | each `gate_mask` entry is 0 or 1, and 0 exactly where the label was `-1` or `lm_mask` is 0 |
| LossMasks.UnsupervisedExampleUsesLanguageModelOnly | scripts/modeling_gpt2.py:247-252 | an example with no label 1 has zero gate-loss weight everywhere, and its training blend is the language-model distribution |
| LossMasks.PaddedTriplesHaveNoTargetAndNoWeight | scripts/modeling_gpt2.py:277-278 | a padded triple has target 0 and weight 0; every other triple keeps its label and weight 1, so labels in {-1, 0, 1} give binary targets |
| LossMasks.PrepareGateMasks | scripts/modeling_gpt2.py:247-252 | `gate_mask` is taken before `gate_label` is cleared in place; `lm_mask` is computed by summing the cleared labels |

## Left out

- The transformer, embeddings and heads are not modelled: `self.bart`, `embed_tokens`, `relation_embd`, `lm_head`, `gate_linear` and `triple_linear`. Their outputs enter as inputs: concept and relation vectors, triple scores, the gate, and the language-model distribution.
- Sigmoid, softmax, logarithm, `BCELoss` and `NLLLoss` are not modelled. They are transcendental. The model takes their inputs and outputs as parameters, and `Composer.Distribution` stands for a softmax result.
- Float32 rounding is not modelled; reals are exact. The NaN and infinity `assert`s (lines 237, 283) are float-only checks and are left out.
- The learned maps `W_s`, `W_n` and `W_r` are arbitrary square matrices applied to vectors. Training them is not modelled.
- The batch dimension is not modelled: one example at a time.
- The decoding-position axis of `multi_hop` and the composer is not modelled. It is a broadcast, so one position is modelled.
- Device moves (`.to(device)`) have no counterpart in the model.
- `generate` (lines 291-323) is not modelled. It hands `autoreg_forward` to an external decoding driver and uses a `self.transformer.wte` the class does not define. The `do_generate` blend is modelled in `Composer.Hybrid`.
- `tie_weights` and `scripts/add_special_tokens.py` are not modelled. They are weight-sharing plumbing and a one-off vocabulary-file edit.
- The loss values themselves are not modelled. Only the weights and targets they receive are (`LossMasks`). The total `gen_loss + alpha*gate_loss + beta*triple_loss` is arithmetic on those losses.
- `concept_label` is accepted but unused by `comp_gcn` and `gcn`, and the model does not take it.
- `Composer.HybridIsDistribution` assumes that no concept slot is mapped by two vocabulary entries. This assumption is not checked by the source.
- `MultiHop.SourcesRankBelowOthers` assumes that triple scores and the decay lie in [0, 1], and that `iteration <= 300`, so that what the hops can add, at most `iteration * (iteration + 1)`, stays below the `1e5` offset. The source sets no such limit. Sigmoid outputs, the default decay 0.8 and the default 3 hops satisfy this.
- `TensorOps.ScatterMean` assumes `scatter_mean` divides `out` in place, because the source discards the call's return value.
