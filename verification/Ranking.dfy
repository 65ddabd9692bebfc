/** The organizer's ranking of PMs (simgrid/organizer/hpvc.c:1119-1164): a bubble sort of PM indices by `nextH`, then a scan for
    the first PM with a free slot and enough gain. */
module Ranking {

  const MIN_GAIN: real := 5.5

  datatype Target = NoTarget | Pm(index: nat)

  /** PM `a` ranks before PM `b`: a smaller key, or the same key and a smaller index. */
  predicate RanksBefore(keys: seq<real>, a: nat, b: nat)
    requires a < |keys| && b < |keys|
  {
    keys[a] < keys[b] || (keys[a] == keys[b] && a < b)
  }

  /** `idx` holds exactly the indices below `n`. */
  ghost predicate IndicesOf(idx: seq<nat>, n: nat) {
    && |idx| == n
    && (forall p :: 0 <= p < n ==> idx[p] < n)
    && (forall m :: 0 <= m < n ==> m in idx)
  }

  /** Equal keys keep the order of their indices. */
  ghost predicate Stable(keys: seq<real>, idx: seq<nat>)
    requires IndicesOf(idx, |keys|)
  {
    forall p, q :: 0 <= p < q < |idx| && keys[idx[p]] == keys[idx[q]] ==> idx[p] < idx[q]
  }

  /** From position `from` on, everything ranks after all that stands before it. */
  ghost predicate RankedFrom(keys: seq<real>, idx: seq<nat>, from: int)
    requires IndicesOf(idx, |keys|)
  {
    forall p, q :: 0 <= p < q < |idx| && q >= from ==> RanksBefore(keys, idx[p], idx[q])
  }

  /** Position `d` ranks after all positions before it. */
  ghost predicate TopOf(keys: seq<real>, idx: seq<nat>, d: nat)
    requires IndicesOf(idx, |keys|)
  {
    d < |idx| ==> forall p :: 0 <= p < d ==> RanksBefore(keys, idx[p], idx[d])
  }

  function Swapped(s: seq<nat>, d: nat): seq<nat>
    requires d + 1 < |s|
  {
    s[d := s[d + 1]][d + 1 := s[d]]
  }

  lemma SwapKeepsIndices(idx: seq<nat>, d: nat, n: nat)
    requires IndicesOf(idx, n) && d + 1 < n
    ensures IndicesOf(Swapped(idx, d), n)
  {
    var s := Swapped(idx, d);
    forall m | 0 <= m < n ensures m in s {
      assert m in idx;
      var p :| 0 <= p < n && idx[p] == m;
      assert s[if p == d then d + 1 else if p == d + 1 then d else p] == m;
    }
  }

  lemma SwapStep(keys: seq<real>, idx: seq<nat>, d: nat, from: nat)
    requires IndicesOf(idx, |keys|) && Stable(keys, idx) && RankedFrom(keys, idx, from) && TopOf(keys, idx, d)
    requires d + 1 < |idx| && d + 1 < from && keys[idx[d]] > keys[idx[d + 1]]
    ensures IndicesOf(Swapped(idx, d), |keys|)
    ensures Stable(keys, Swapped(idx, d)) && RankedFrom(keys, Swapped(idx, d), from) && TopOf(keys, Swapped(idx, d), d + 1)
  {
    SwapKeepsIndices(idx, d, |keys|);
  }

  lemma KeepStep(keys: seq<real>, idx: seq<nat>, d: nat)
    requires IndicesOf(idx, |keys|) && Stable(keys, idx) && TopOf(keys, idx, d)
    requires d + 1 < |idx| && keys[idx[d]] <= keys[idx[d + 1]]
    ensures TopOf(keys, idx, d + 1)
  {
  }

  /** One pass: the largest of the first n - c keys sinks to position n - c - 1. */
  method BubblePass(keys: array<real>, idx: array<nat>, c: nat)
    requires idx.Length == keys.Length && c < idx.Length
    requires IndicesOf(idx[..], keys.Length) && Stable(keys[..], idx[..]) && RankedFrom(keys[..], idx[..], idx.Length - c)
    modifies idx
    ensures keys[..] == old(keys[..]) && IndicesOf(idx[..], keys.Length)
    ensures Stable(keys[..], idx[..]) && RankedFrom(keys[..], idx[..], idx.Length - c - 1)
  {
    var n := idx.Length;
    for d := 0 to n - c - 1
      invariant IndicesOf(idx[..], n) && Stable(keys[..], idx[..]) && RankedFrom(keys[..], idx[..], n - c)
      invariant TopOf(keys[..], idx[..], d)
    {
      ghost var s := idx[..];
      if keys[idx[d]] > keys[idx[d + 1]] {
        SwapStep(keys[..], s, d, n - c);
        var swap := idx[d];
        idx[d] := idx[d + 1];
        idx[d + 1] := swap;
        assert idx[..] == Swapped(s, d);
      } else {
        KeepStep(keys[..], s, d);
      }
    }
  }

  /** The bubble sort, in place on the index array. */
  method SortIndices(keys: array<real>, idx: array<nat>)
    requires idx.Length == keys.Length && forall p :: 0 <= p < idx.Length ==> idx[p] == p
    modifies idx
    ensures keys[..] == old(keys[..])
    ensures IndicesOf(idx[..], keys.Length) && RankedFrom(keys[..], idx[..], 0)
  {
    var n := idx.Length;
    forall m | 0 <= m < n ensures m in idx[..] { assert idx[..][m] == m; }
    var c := 0;
    while c < n - 1
      invariant c == 0 || c < n
      invariant IndicesOf(idx[..], n) && Stable(keys[..], idx[..]) && RankedFrom(keys[..], idx[..], n - c)
    {
      BubblePass(keys, idx, c);
      c := c + 1;
    }
  }

  /** A PM that can take the VM: a free slot. */
  predicate Free(counts: seq<nat>, capacity: nat, m: nat) {
    m < |counts| && counts[m] < capacity
  }

  /** The PM of least key among those with a free slot, the lowest index among equals. */
  ghost predicate BestFree(keys: seq<real>, counts: seq<nat>, capacity: nat, m: nat)
    requires |counts| == |keys|
  {
    Free(counts, capacity, m) && forall m' :: 0 <= m' < |keys| && Free(counts, capacity, m') && m' != m ==> RanksBefore(keys, m, m')
  }

  /** What a period is meant to do: move to the best free PM if that gains more than MIN_GAIN, otherwise nothing. */
  ghost predicate IsTarget(keys: seq<real>, counts: seq<nat>, capacity: nat, currentH: real, t: Target)
    requires |counts| == |keys|
  {
    match t
    case Pm(m) => BestFree(keys, counts, capacity, m) && currentH - keys[m] > MIN_GAIN
    case NoTarget => forall m: nat :: BestFree(keys, counts, capacity, m) ==> currentH - keys[m] <= MIN_GAIN
  }

  lemma BestFreeUnique(keys: seq<real>, counts: seq<nat>, capacity: nat, m: nat, m': nat)
    requires |counts| == |keys| && BestFree(keys, counts, capacity, m) && BestFree(keys, counts, capacity, m')
    ensures m == m'
  {
  }

  lemma TargetUnique(keys: seq<real>, counts: seq<nat>, capacity: nat, currentH: real, t: Target, t': Target)
    requires |counts| == |keys|
    requires IsTarget(keys, counts, capacity, currentH, t) && IsTarget(keys, counts, capacity, currentH, t')
    ensures t == t'
  {
    if t.Pm? && t'.Pm? {
      BestFreeUnique(keys, counts, capacity, t.index, t'.index);
    }
  }

  /** Nothing before position `i` of the ranking was free and gainful. */
  ghost predicate NoneBefore(keys: seq<real>, counts: seq<nat>, capacity: nat, currentH: real, idx: seq<nat>, i: nat)
    requires |counts| == |keys| && IndicesOf(idx, |keys|)
  {
    forall p :: 0 <= p < i && p < |idx| ==> !(Free(counts, capacity, idx[p]) && currentH - keys[idx[p]] > MIN_GAIN)
  }

  lemma FirstIsTarget(keys: seq<real>, counts: seq<nat>, capacity: nat, currentH: real, idx: seq<nat>, i: nat)
    requires |counts| == |keys| && IndicesOf(idx, |keys|) && RankedFrom(keys, idx, 0)
    requires i < |idx| && NoneBefore(keys, counts, capacity, currentH, idx, i)
    requires Free(counts, capacity, idx[i]) && currentH - keys[idx[i]] > MIN_GAIN
    ensures IsTarget(keys, counts, capacity, currentH, Pm(idx[i]))
  {
    forall p | 0 <= p < i ensures currentH - keys[idx[p]] > MIN_GAIN && !Free(counts, capacity, idx[p]) {
      assert RanksBefore(keys, idx[p], idx[i]);
    }
    forall m | 0 <= m < |keys| && Free(counts, capacity, m) && m != idx[i] ensures RanksBefore(keys, idx[i], m) {
      assert m in idx;
      var p :| 0 <= p < |idx| && idx[p] == m;
      assert p > i;
    }
  }

  lemma NoneIsTarget(keys: seq<real>, counts: seq<nat>, capacity: nat, currentH: real, idx: seq<nat>)
    requires |counts| == |keys| && IndicesOf(idx, |keys|) && NoneBefore(keys, counts, capacity, currentH, idx, |idx|)
    ensures IsTarget(keys, counts, capacity, currentH, NoTarget)
  {
    forall m: nat | BestFree(keys, counts, capacity, m) ensures currentH - keys[m] <= MIN_GAIN {
      assert m in idx;
      var p :| 0 <= p < |idx| && idx[p] == m;
    }
  }

  /** Sort, then take the first PM in order that has a free slot and gains enough. */
  method PickTarget(keys: array<real>, counts: seq<nat>, capacity: nat, currentH: real) returns (t: Target)
    requires |counts| == keys.Length
    ensures IsTarget(keys[..], counts, capacity, currentH, t)
  {
    var n := keys.Length;
    var idx := new nat[n](p => p);
    SortIndices(keys, idx);
    for i := 0 to n
      invariant NoneBefore(keys[..], counts, capacity, currentH, idx[..], i)
    {
      var m := idx[i];
      if counts[m] < capacity && currentH - keys[m] > MIN_GAIN {
        FirstIsTarget(keys[..], counts, capacity, currentH, idx[..], i);
        return Pm(m);
      }
    }
    NoneIsTarget(keys[..], counts, capacity, currentH, idx[..]);
    return NoTarget;
  }

  /** Among the first `k` PMs some free one is the best, if any is free. */
  lemma {:induction false} SomeBestFree(keys: seq<real>, counts: seq<nat>, capacity: nat, m: nat, k: nat) returns (best: nat)
    requires |counts| == |keys| && m < k <= |keys| && Free(counts, capacity, m)
    ensures best < k && Free(counts, capacity, best) && keys[best] <= keys[m]
    ensures forall m' :: 0 <= m' < k && Free(counts, capacity, m') && m' != best ==> RanksBefore(keys, best, m')
  {
    if exists m' :: 0 <= m' < k - 1 && Free(counts, capacity, m') {
      var first := if m < k - 1 then m else var m' :| 0 <= m' < k - 1 && Free(counts, capacity, m'); m';
      best := SomeBestFree(keys, counts, capacity, first, k - 1);
      if Free(counts, capacity, k - 1) && keys[k - 1] < keys[best] { best := k - 1; }
    } else {
      best := m;
    }
  }

  /** Without a target no PM with a free slot gains more than the least gain. */
  lemma NoTargetMeansNoGain(keys: seq<real>, counts: seq<nat>, capacity: nat, currentH: real, m: nat)
    requires |counts| == |keys| && IsTarget(keys, counts, capacity, currentH, NoTarget) && m < |keys| && counts[m] < capacity
    ensures currentH - keys[m] <= 5.5
  {
    var best := SomeBestFree(keys, counts, capacity, m, |keys|);
    assert BestFree(keys, counts, capacity, best);
  }
}
