/** The in-place tensor primitives the model is written with: `masked_fill_`
    and the `scatter_add`, `scatter_max` and `scatter_mean` reductions of
    torch_scatter, each writing into a caller-supplied `out` buffer along one
    axis. The spec functions give the value of one output slot `v` after the
    first `n` source entries have been folded into its initial value. */
module TensorOps {
  import opened Vectors

  /** Every index addresses one of `size` output slots. */
  predicate IndicesIn(index: seq<int>, size: nat)
  {
    forall t :: 0 <= t < |index| ==> 0 <= index[t] < size
  }

  /** No entry of `index` among the first `n` addresses slot `v`. */
  predicate Untargeted(index: seq<int>, v: int, n: nat)
    requires n <= |index|
  {
    forall t :: 0 <= t < n ==> index[t] != v
  }

  /** Slot `v` of `scatter_add(src, index, out=out)` where `out[v] == init`. */
  function AddInto(init: real, src: seq<real>, index: seq<int>, v: int, n: nat): real
    requires n <= |src| && n <= |index|
  {
    if n == 0 then init
    else AddInto(init, src, index, v, n - 1) + (if index[n - 1] == v then src[n - 1] else 0.0)
  }

  /** Slot `v` of `scatter_max(src, index, out=out)` where `out[v] == init`:
      the buffer's own value takes part in the maximum. */
  function MaxInto(init: real, src: seq<real>, index: seq<int>, v: int, n: nat): real
    requires n <= |src| && n <= |index|
  {
    if n == 0 then init
    else
      var m := MaxInto(init, src, index, v, n - 1);
      if index[n - 1] == v && src[n - 1] > m then src[n - 1] else m
  }

  function Ones(n: nat): seq<real>
  {
    seq(n, _ => 1.0)
  }

  /** Slot `v` of `scatter_mean(src, index, out=out)` where `out[v] == init`:
      the sum into the buffer, divided by the number of entries of `index`
      that address `v`, clamped to at least one. */
  function MeanInto(init: real, src: seq<real>, index: seq<int>, v: int): real
    requires |src| == |index|
  {
    AddInto(init, src, index, v, |src|) / ClampMinOne(AddInto(0.0, Ones(|index|), index, v, |index|))
  }

  /** Row-valued `scatter_add`: slot `v` of the buffer after the first `n` rows. */
  function AddRowsInto(init: Vec, src: seq<Vec>, index: seq<int>, v: int, n: nat): (r: Vec)
    requires n <= |src| && n <= |index|
    requires forall t :: 0 <= t < n ==> |src[t]| == |init|
    ensures |r| == |init|
  {
    if n == 0 then init
    else
      var prev := AddRowsInto(init, src, index, v, n - 1);
      if index[n - 1] == v then Add(prev, src[n - 1]) else prev
  }

  /** Coordinate `k` of every row. */
  function Column(src: seq<Vec>, k: nat): (c: seq<real>)
    requires forall t :: 0 <= t < |src| ==> k < |src[t]|
    ensures |c| == |src|
  {
    seq(|src|, t requires 0 <= t < |src| => src[t][k])
  }

  // ---------------------------------------------------------------------
  // Facts about the reductions

  /** Row scatter-add works coordinate by coordinate. */
  lemma {:induction false} AddRowsIntoAt(init: Vec, src: seq<Vec>, index: seq<int>, v: int, n: nat, k: nat)
    requires n <= |src| && n <= |index|
    requires forall t :: 0 <= t < |src| ==> |src[t]| == |init|
    requires k < |init|
    ensures AddRowsInto(init, src, index, v, n)[k] == AddInto(init[k], Column(src, k), index, v, n)
  {
    if n > 0 {
      AddRowsIntoAt(init, src, index, v, n - 1, k);
    }
  }

  /** The initial buffer value is carried through a scatter-add unchanged. */
  lemma {:induction false} AddIntoShift(init: real, src: seq<real>, index: seq<int>, v: int, n: nat)
    requires n <= |src| && n <= |index|
    ensures AddInto(init, src, index, v, n) == init + AddInto(0.0, src, index, v, n)
  {
    if n > 0 {
      AddIntoShift(init, src, index, v, n - 1);
    }
  }

  /** A slot no entry addresses keeps its initial value under the sum and the maximum. */
  lemma {:induction false} UntargetedSlotUnchanged(init: real, src: seq<real>, index: seq<int>, v: int, n: nat)
    requires n <= |src| && n <= |index|
    requires Untargeted(index, v, n)
    ensures AddInto(init, src, index, v, n) == init
    ensures MaxInto(init, src, index, v, n) == init
  {
    if n > 0 {
      UntargetedSlotUnchanged(init, src, index, v, n - 1);
    }
  }

  /** A slot no entry addresses keeps its initial value under the mean: its
      count is 0, clamped to 1. */
  lemma UntargetedSlotKeepsMean(init: real, src: seq<real>, index: seq<int>, v: int)
    requires |src| == |index| && Untargeted(index, v, |index|)
    ensures MeanInto(init, src, index, v) == init
  {
    UntargetedSlotUnchanged(init, src, index, v, |src|);
    UntargetedSlotUnchanged(0.0, Ones(|index|), index, v, |index|);
  }

  /** Adding entries that are all zero leaves every slot unchanged. */
  lemma {:induction false} AddZerosInto(init: real, src: seq<real>, index: seq<int>, v: int, n: nat)
    requires n <= |src| && n <= |index|
    requires forall t :: 0 <= t < n ==> src[t] == 0.0
    ensures AddInto(init, src, index, v, n) == init
  {
    if n > 0 {
      AddZerosInto(init, src, index, v, n - 1);
    }
  }

  /** Adding rows that are all zero leaves every slot unchanged. */
  lemma {:induction false} AddZeroRowsInto(init: Vec, src: seq<Vec>, index: seq<int>, v: int, n: nat)
    requires n <= |src| && n <= |index|
    requires forall t :: 0 <= t < n ==> |src[t]| == |init| && src[t] == Zero(|init|)
    ensures AddRowsInto(init, src, index, v, n) == init
  {
    if n > 0 {
      AddZeroRowsInto(init, src, index, v, n - 1);
      assert Add(init, Zero(|init|)) == init;
    }
  }

  /** The maximum never falls below the buffer's initial value. */
  lemma {:induction false} MaxIntoAtLeastInit(init: real, src: seq<real>, index: seq<int>, v: int, n: nat)
    requires n <= |src| && n <= |index|
    ensures init <= MaxInto(init, src, index, v, n)
  {
    if n > 0 {
      MaxIntoAtLeastInit(init, src, index, v, n - 1);
    }
  }

  /** The maximum is at least every entry addressing the slot. */
  lemma {:induction false} MaxIntoAtLeastEntries(init: real, src: seq<real>, index: seq<int>, v: int, n: nat)
    requires n <= |src| && n <= |index|
    ensures forall t :: 0 <= t < n && index[t] == v ==> src[t] <= MaxInto(init, src, index, v, n)
  {
    if n > 0 {
      MaxIntoAtLeastEntries(init, src, index, v, n - 1);
    }
  }

  /** The maximum is attained: it is the initial value or one of the
      entries addressing the slot. */
  lemma {:induction false} MaxIntoAttained(init: real, src: seq<real>, index: seq<int>, v: int, n: nat)
    requires n <= |src| && n <= |index|
    ensures var m := MaxInto(init, src, index, v, n);
      m == init || exists t :: 0 <= t < n && index[t] == v && m == src[t]
  {
    if n > 0 {
      MaxIntoAttained(init, src, index, v, n - 1);
    }
  }

  /** Entries no larger than the buffer's initial value cannot change a
      maximum, wherever they point. */
  lemma {:induction false} MaxIgnoresSmallEntries(init: real, src: seq<real>, i1: seq<int>, i2: seq<int>, v: int, n: nat)
    requires n <= |src| && n <= |i1| && n <= |i2|
    requires forall t :: 0 <= t < n ==> i1[t] == i2[t] || src[t] <= init
    ensures MaxInto(init, src, i1, v, n) == MaxInto(init, src, i2, v, n)
  {
    if n > 0 {
      MaxIgnoresSmallEntries(init, src, i1, i2, v, n - 1);
      MaxIntoAtLeastInit(init, src, i1, v, n - 1);
    }
  }

  /** A sum of non-negative addressed entries into zero is non-negative. */
  lemma {:induction false} AddIntoNonNegative(src: seq<real>, index: seq<int>, v: int, n: nat)
    requires n <= |src| && n <= |index|
    requires forall t :: 0 <= t < n && index[t] == v ==> 0.0 <= src[t]
    ensures 0.0 <= AddInto(0.0, src, index, v, n)
  {
    if n > 0 {
      AddIntoNonNegative(src, index, v, n - 1);
    }
  }

  /** The maximum never falls below the buffer's initial value, and never
      exceeds a bound that the initial value and every entry addressing the
      slot respect. */
  lemma {:induction false} MaxIntoBounds(init: real, src: seq<real>, index: seq<int>, v: int, n: nat, bound: real)
    requires n <= |src| && n <= |index|
    requires init <= bound
    requires forall t :: 0 <= t < n && index[t] == v ==> src[t] <= bound
    ensures init <= MaxInto(init, src, index, v, n) <= bound
  {
    if n > 0 {
      MaxIntoBounds(init, src, index, v, n - 1, bound);
    }
  }

  /** Sums of entries that lie in `[lo, hi]` lie in `[lo * c, hi * c]`,
      where `c` counts the entries addressing the slot. */
  lemma {:induction false} AddIntoBounds(src: seq<real>, index: seq<int>, v: int, n: nat, lo: real, hi: real)
    requires n <= |src| && n <= |index|
    requires forall t :: 0 <= t < n && index[t] == v ==> lo <= src[t] <= hi
    ensures lo * AddInto(0.0, Ones(n), index, v, n) <= AddInto(0.0, src, index, v, n)
              <= hi * AddInto(0.0, Ones(n), index, v, n)
  {
    if n > 0 {
      AddIntoBounds(src, index, v, n - 1, lo, hi);
      assert AddInto(0.0, Ones(n), index, v, n - 1) == AddInto(0.0, Ones(n - 1), index, v, n - 1) by {
        OnesPrefix(index, v, n - 1, n);
      }
    }
  }

  lemma {:induction false} OnesPrefix(index: seq<int>, v: int, n: nat, m: nat)
    requires n <= m <= |index|
    ensures AddInto(0.0, Ones(m), index, v, n) == AddInto(0.0, Ones(n), index, v, n)
  {
    if n > 0 {
      OnesPrefix(index, v, n - 1, m);
      OnesPrefix(index, v, n - 1, n);
    }
  }

  /** When exactly one entry `t0` addresses slot `v`, the sum adds that
      entry once, the maximum compares it with the initial value once, and
      the count is one. */
  lemma {:induction false} SingleEntryReductions(init: real, src: seq<real>, index: seq<int>, v: int, t0: nat, n: nat)
    requires n <= |src| && n <= |index|
    requires forall t :: 0 <= t < n ==> (index[t] == v <==> t == t0)
    ensures AddInto(init, src, index, v, n) == init + (if t0 < n then src[t0] else 0.0)
    ensures MaxInto(init, src, index, v, n)
              == (if t0 < n && src[t0] > init then src[t0] else init)
    ensures AddInto(0.0, Ones(|index|), index, v, n) == (if t0 < n then 1.0 else 0.0)
  {
    if n > 0 {
      SingleEntryReductions(init, src, index, v, t0, n - 1);
    }
  }

  // ---------------------------------------------------------------------
  // The in-place operations

  /** `a.masked_fill_(mask, value)`. */
  method MaskedFill(a: array<real>, mask: seq<bool>, value: real)
    requires |mask| == a.Length
    modifies a
    ensures forall i :: 0 <= i < a.Length ==> a[i] == if mask[i] then value else old(a[i])
  {
    for i := 0 to a.Length
      invariant forall j :: 0 <= j < i ==> a[j] == if mask[j] then value else old(a[j])
      invariant forall j :: i <= j < a.Length ==> a[j] == old(a[j])
    {
      if mask[i] {
        a[i] := value;
      }
    }
  }

  /** `scatter_add(src, index, out=out)` on scalars. */
  method ScatterAdd(src: seq<real>, index: seq<int>, out: array<real>)
    requires |src| == |index| && IndicesIn(index, out.Length)
    modifies out
    ensures forall v :: 0 <= v < out.Length ==> out[v] == AddInto(old(out[v]), src, index, v, |src|)
  {
    for t := 0 to |src|
      invariant forall v :: 0 <= v < out.Length ==> out[v] == AddInto(old(out[v]), src, index, v, t)
    {
      out[index[t]] := out[index[t]] + src[t];
    }
  }

  /** `scatter_add(src, index, out=out)` on rows of dimension `d`. */
  method ScatterAddRows(src: seq<Vec>, index: seq<int>, out: array<Vec>, d: nat)
    requires |src| == |index| && IndicesIn(index, out.Length)
    requires Rows(src, |src|, d) && Rows(out[..], out.Length, d)
    modifies out
    ensures forall v :: 0 <= v < out.Length ==> out[v] == AddRowsInto(old(out[v]), src, index, v, |src|)
    ensures Rows(out[..], out.Length, d)
  {
    for t := 0 to |src|
      invariant forall v :: 0 <= v < out.Length ==> out[v] == AddRowsInto(old(out[v]), src, index, v, t)
    {
      out[index[t]] := Add(out[index[t]], src[t]);
    }
  }

  /** `scatter_max(src, index, out=out)`. */
  method ScatterMax(src: seq<real>, index: seq<int>, out: array<real>)
    requires |src| == |index| && IndicesIn(index, out.Length)
    modifies out
    ensures forall v :: 0 <= v < out.Length ==> out[v] == MaxInto(old(out[v]), src, index, v, |src|)
  {
    for t := 0 to |src|
      invariant forall v :: 0 <= v < out.Length ==> out[v] == MaxInto(old(out[v]), src, index, v, t)
    {
      if src[t] > out[index[t]] {
        out[index[t]] := src[t];
      }
    }
  }

  /** `scatter_mean(src, index, out=out)`: scatter-add into `out`, count the
      entries addressing each slot, clamp the counts to at least one and
      divide `out` by them in place. */
  method ScatterMean(src: seq<real>, index: seq<int>, out: array<real>)
    requires |src| == |index| && IndicesIn(index, out.Length)
    modifies out
    ensures forall v :: 0 <= v < out.Length ==> out[v] == MeanInto(old(out[v]), src, index, v)
  {
    ScatterAdd(src, index, out);
    var count := new real[out.Length](_ => 0.0);
    ScatterAdd(Ones(|index|), index, count);
    for v := 0 to out.Length
      invariant forall u :: 0 <= u < out.Length ==> count[u] == AddInto(0.0, Ones(|index|), index, u, |index|)
      invariant forall u :: 0 <= u < v ==> out[u] == MeanInto(old(out[u]), src, index, u)
      invariant forall u :: v <= u < out.Length ==> out[u] == AddInto(old(out[u]), src, index, u, |src|)
    {
      out[v] := out[v] / ClampMinOne(count[v]);
    }
  }
}
