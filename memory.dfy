/** The per-example graph memory: fixed-capacity concept slots and triple
    slots, with padding marked by the sentinel label -1. */
module Memory {

  /** The label value that marks a padded concept or triple slot. */
  const PAD: int := -1

  /** The triple slots of one example: `head[t]` and `tail[t]` are concept
      slot indices and `labels[t] == PAD` marks a padded triple. */
  datatype Triples = Triples(head: seq<int>, tail: seq<int>, labels: seq<int>)
  {
    function Size(): nat
    {
      |labels|
    }

    /** The three per-triple tensors agree in length and every head and tail
        (padded triples included, since they are gathered too) addresses one
        of `mem` concept slots. */
    predicate WellFormed(mem: nat)
    {
      && |head| == |labels|
      && |tail| == |labels|
      && (forall t :: 0 <= t < |head| ==> 0 <= head[t] < mem)
      && (forall t :: 0 <= t < |tail| ==> 0 <= tail[t] < mem)
    }

    /** No valid triple has slot `v` as its head or its tail. */
    predicate Isolated(v: int)
      requires |head| == |labels| && |tail| == |labels|
    {
      forall t :: 0 <= t < |labels| && labels[t] != PAD ==> head[t] != v && tail[t] != v
    }
  }
}
