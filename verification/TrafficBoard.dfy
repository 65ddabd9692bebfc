/** The matrices of the organizer (simgrid/organizer/hpvc.c): senders record their traffic in one pair of them, and every period
    the organizer collects and smooths that pair into another. */
module TrafficBoard {
  import opened Traffic
  import opened Smoothing
  import opened Scoring

  /** The contents of a two-dimensional array, row by row. */
  ghost function Rows<T>(a: array2<T>): (r: seq<seq<T>>)
    reads a
    ensures |r| == a.Length0 && forall i :: 0 <= i < a.Length0 ==> |r[i]| == a.Length1
    ensures forall i, j :: 0 <= i < a.Length0 && 0 <= j < a.Length1 ==> r[i][j] == a[i, j]
  {
    seq(a.Length0, i requires 0 <= i < a.Length0 reads a =>
      seq(a.Length1, j requires 0 <= j < a.Length1 reads a => a[i, j]))
  }

  /** A pair of matrices: how many messages, and how long they take on average. */
  class Board {
    const n: nat
    var rate: array2<int>
    var latency: array2<real>

    ghost predicate Valid()
      reads this, rate, latency
    {
      && rate.Length0 == rate.Length1 == n && latency.Length0 == latency.Length1 == n
      && forall i, j :: 0 <= i < n && 0 <= j < n ==> rate[i, j] >= 1 && latency[i, j] >= 0.0
    }

    ghost function Abs(): Matrices
      reads this, rate, latency
    {
      Matrices(Rows(rate), Rows(latency))
    }

    /** `create_organization_matrix`. */
    constructor (n: nat)
      ensures Valid() && fresh(rate) && fresh(latency) && this.n == n
      ensures forall i, j :: 0 <= i < n && 0 <= j < n ==> Abs().At(n, i, j) == INITIAL
    {
      this.n := n;
      rate := new int[n, n]((_, _) => INITIAL_RATE);
      latency := new real[n, n]((_, _) => INITIAL_LATENCY);
    }

    method WeightOf(i: nat, j: nat) returns (w: real)
      requires Valid() && i < n && j < n
      ensures w == Abs().Weight(n, i, j)
    {
      w := rate[i, j] as real * latency[i, j];
    }

    method SetCell(i: nat, j: nat, c: Cell)
      requires Valid() && i < n && j < n && c.rate >= 1 && c.latency >= 0.0
      modifies rate, latency
      ensures Valid() && rate == old(rate) && latency == old(latency)
      ensures old(Abs()).SetTo(n, i, j, c, Abs())
    {
      rate[i, j] := c.rate;
      latency[i, j] := c.latency;
    }

    /** The end of `send_task`: a successful send between VMs of the organized cluster enters the cell of its pair. */
    method RecordSend(sender: nat, receiver: nat, ok: bool, elapsed: real)
      requires Valid() && sender < n && receiver < n && elapsed >= 0.0
      modifies rate, latency
      ensures Valid() && rate == old(rate) && latency == old(latency)
      ensures ok ==> old(Abs()).SetTo(n, sender, receiver, Record(old(Abs()).At(n, sender, receiver), elapsed), Abs())
      ensures !ok ==> Abs() == old(Abs())
    {
      if ok {
        var oldAvg, oldRate := latency[sender, receiver], rate[sender, receiver];
        NewAverage(oldAvg, oldRate, elapsed);
        SetCell(sender, receiver, Cell(oldRate + 1, (oldAvg * oldRate as real + elapsed) / (oldRate + 1) as real));
      }
    }

    method CollectCell(from: Board, alpha: real, i: nat, j: nat, ghost smooth: Matrices, ghost raw: Matrices)
      requires Valid() && from.Valid() && from.n == n && ValidAlpha(alpha) && i < n && j < n
      requires rate != from.rate && latency != from.latency && smooth.Valid(n) && raw.Valid(n)
      requires CollectedUpTo(n, alpha, smooth, raw, Abs(), from.Abs(), i, j)
      modifies rate, latency, from.rate, from.latency
      ensures Valid() && from.Valid() && rate == old(rate) && latency == old(latency)
      ensures from.rate == old(from.rate) && from.latency == old(from.latency)
      ensures CollectedUpTo(n, alpha, smooth, raw, Abs(), from.Abs(), i, j + 1)
    {
      var c := SmoothCell(alpha, Cell(rate[i, j], latency[i, j]), Cell(from.rate[i, j], from.latency[i, j]));
      SetCell(i, j, c);
      from.SetCell(i, j, INITIAL);
      CollectStep(n, alpha, smooth, raw, old(Abs()), old(from.Abs()), Abs(), from.Abs(), i, j);
    }

    /** One row of the snapshot loop. */
    method CollectRow(from: Board, alpha: real, i: nat, ghost smooth: Matrices, ghost raw: Matrices)
      requires Valid() && from.Valid() && from.n == n && ValidAlpha(alpha) && i < n
      requires rate != from.rate && latency != from.latency && smooth.Valid(n) && raw.Valid(n)
      requires CollectedUpTo(n, alpha, smooth, raw, Abs(), from.Abs(), i, 0)
      modifies rate, latency, from.rate, from.latency
      ensures Valid() && from.Valid() && rate == old(rate) && latency == old(latency)
      ensures from.rate == old(from.rate) && from.latency == old(from.latency)
      ensures CollectedUpTo(n, alpha, smooth, raw, Abs(), from.Abs(), i + 1, 0)
    {
      for j := 0 to n
        invariant Valid() && from.Valid() && rate == old(rate) && latency == old(latency)
        invariant from.rate == old(from.rate) && from.latency == old(from.latency)
        invariant CollectedUpTo(n, alpha, smooth, raw, Abs(), from.Abs(), i, j)
      {
        CollectCell(from, alpha, i, j, smooth, raw);
      }
      RowCollected(n, alpha, smooth, raw, Abs(), from.Abs(), i);
    }

    /** The snapshot loop of a period: smooth `from` into this board and set it back to its initial values, cell by cell. */
    method Collect(from: Board, alpha: real)
      requires Valid() && from.Valid() && from.n == n && ValidAlpha(alpha)
      requires rate != from.rate && latency != from.latency
      modifies rate, latency, from.rate, from.latency
      ensures Valid() && from.Valid() && rate == old(rate) && latency == old(latency)
      ensures from.rate == old(from.rate) && from.latency == old(from.latency)
      ensures CollectedUpTo(n, alpha, old(Abs()), old(from.Abs()), Abs(), from.Abs(), n, 0)
    {
      for i := 0 to n
        invariant Valid() && from.Valid() && rate == old(rate) && latency == old(latency)
        invariant from.rate == old(from.rate) && from.latency == old(from.latency)
        invariant CollectedUpTo(n, alpha, old(Abs()), old(from.Abs()), Abs(), from.Abs(), i, 0)
      {
        CollectRow(from, alpha, i, old(Abs()), old(from.Abs()));
      }
    }
  }

  method SmoothCell(alpha: real, smooth: Cell, raw: Cell) returns (c: Cell)
    requires ValidAlpha(alpha) && smooth.rate >= 1 && raw.rate >= 1 && smooth.latency >= 0.0 && raw.latency >= 0.0
    ensures c == Collected(alpha, smooth, raw) && c.rate >= 1 && c.latency >= 0.0
  {
    LatencyStep(alpha, smooth.latency, raw.latency, 0.0);
    CollectedFloor(alpha, smooth.rate, raw.rate);
    c := Cell(SmoothRate(alpha, smooth.rate, raw.rate), SmoothLatency(alpha, smooth.latency, raw.latency));
  }

  /** What a period makes of a smoothed cell and a raw one. */
  function Collected(alpha: real, smooth: Cell, raw: Cell): Cell {
    Cell(SmoothRate(alpha, smooth.rate, raw.rate), SmoothLatency(alpha, smooth.latency, raw.latency))
  }

  lemma NewAverage(average: real, rate: int, elapsed: real)
    requires average >= 0.0 && rate >= 1 && elapsed >= 0.0
    ensures (average * rate as real + elapsed) / (rate + 1) as real >= 0.0
  {
  }

  lemma CollectedFloor(alpha: real, rate: int, raw: int)
    requires ValidAlpha(alpha) && rate >= 1 && raw >= 1
    ensures SmoothRate(alpha, rate, raw) >= 1
  {
    RateStep(alpha, rate, raw);
  }

  /** The snapshot has dealt with the cells before (row, column) and with no others. */
  ghost predicate CollectedUpTo(n: nat, alpha: real, smooth: Matrices, raw: Matrices, smooth': Matrices, raw': Matrices,
                                row: nat, column: nat)
    requires smooth.Valid(n) && raw.Valid(n) && smooth'.Valid(n) && raw'.Valid(n)
  {
    forall i, j :: 0 <= i < n && 0 <= j < n ==>
      if i < row || (i == row && j < column)
      then smooth'.At(n, i, j) == Collected(alpha, smooth.At(n, i, j), raw.At(n, i, j)) && raw'.At(n, i, j) == INITIAL
      else smooth'.At(n, i, j) == smooth.At(n, i, j) && raw'.At(n, i, j) == raw.At(n, i, j)
  }

  lemma CollectStep(n: nat, alpha: real, smooth: Matrices, raw: Matrices, s: Matrices, r: Matrices, s': Matrices, r': Matrices,
                    i: nat, j: nat)
    requires smooth.Valid(n) && raw.Valid(n) && s.Valid(n) && r.Valid(n) && s'.Valid(n) && r'.Valid(n) && i < n && j < n
    requires CollectedUpTo(n, alpha, smooth, raw, s, r, i, j)
    requires s.SetTo(n, i, j, Collected(alpha, s.At(n, i, j), r.At(n, i, j)), s') && r.SetTo(n, i, j, INITIAL, r')
    ensures CollectedUpTo(n, alpha, smooth, raw, s', r', i, j + 1)
  {
  }

  lemma RowCollected(n: nat, alpha: real, smooth: Matrices, raw: Matrices, smooth': Matrices, raw': Matrices, i: nat)
    requires smooth.Valid(n) && raw.Valid(n) && smooth'.Valid(n) && raw'.Valid(n) && i < n
    requires CollectedUpTo(n, alpha, smooth, raw, smooth', raw', i, n)
    ensures CollectedUpTo(n, alpha, smooth, raw, smooth', raw', i + 1, 0)
  {
  }

  /** A snapshot gives the past the weight `alpha`: the new latency keeps that part of its distance to the raw one, and the new rate
      is the weighted mean, cut off. */
  lemma SnapshotWeights(alpha: real, smooth: Cell, raw: Cell)
    requires ValidAlpha(alpha) && smooth.rate >= 0 && raw.rate >= 0
    ensures Collected(alpha, smooth, raw).latency - raw.latency == alpha * (smooth.latency - raw.latency)
    ensures var rate := Collected(alpha, smooth, raw).rate as real;
      rate <= alpha * smooth.rate as real + (1.0 - alpha) * raw.rate as real < rate + 1.0
  {
    MeanIdentity(alpha, smooth.latency, raw.latency);
    RateIsMean(alpha, smooth.rate, raw.rate);
  }

  /** A series of snapshots: before the k-th one the smoothed matrices are smooths[k] and the raw ones raws[k], which it sets back
      to cleared[k]. */
  ghost predicate Snapshots(n: nat, alpha: real, smooths: seq<Matrices>, raws: seq<Matrices>, cleared: seq<Matrices>) {
    && |smooths| == |raws| + 1 && |cleared| == |raws|
    && (forall k :: 0 <= k < |smooths| ==> smooths[k].Valid(n))
    && (forall k :: 0 <= k < |raws| ==> raws[k].Valid(n) && cleared[k].Valid(n))
    && forall k, l :: 0 <= k < |raws| && l == k + 1 ==> CollectedUpTo(n, alpha, smooths[k], raws[k], smooths[l], cleared[k], n, 0)
  }

  ghost function RatesOf(n: nat, raws: seq<Matrices>, i: nat, j: nat): seq<int>
    requires i < n && j < n && forall k :: 0 <= k < |raws| ==> raws[k].Valid(n)
  {
    seq(|raws|, k requires 0 <= k < |raws| => raws[k].At(n, i, j).rate)
  }

  ghost function LatenciesOf(n: nat, raws: seq<Matrices>, i: nat, j: nat): seq<real>
    requires i < n && j < n && forall k :: 0 <= k < |raws| ==> raws[k].Valid(n)
  {
    seq(|raws|, k requires 0 <= k < |raws| => raws[k].At(n, i, j).latency)
  }

  /** After a series of snapshots a pair's smoothed rate and latency are those of its history, oldest first. */
  lemma {:induction false} HistoryOfPair(n: nat, alpha: real, smooths: seq<Matrices>, raws: seq<Matrices>, cleared: seq<Matrices>,
                                         i: nat, j: nat)
    requires Snapshots(n, alpha, smooths, raws, cleared) && i < n && j < n
    ensures smooths[|raws|].At(n, i, j).rate == Smoothed(alpha, smooths[0].At(n, i, j).rate, RatesOf(n, raws, i, j))
    ensures smooths[|raws|].At(n, i, j).latency
         == SmoothedLatencies(alpha, smooths[0].At(n, i, j).latency, LatenciesOf(n, raws, i, j))
    decreases |raws|
  {
    if raws != [] {
      var m := |raws| - 1;
      HistoryOfPair(n, alpha, smooths[..m + 1], raws[..m], cleared[..m], i, j);
      LastSnapshot(n, alpha, smooths[m], raws[m], smooths[m + 1], cleared[m], i, j);
      SmoothedNext(alpha, smooths[0].At(n, i, j), RatesOf(n, raws[..m], i, j), LatenciesOf(n, raws[..m], i, j), raws[m].At(n, i, j));
      assert RatesOf(n, raws, i, j) == RatesOf(n, raws[..m], i, j) + [raws[m].At(n, i, j).rate];
      assert LatenciesOf(n, raws, i, j) == LatenciesOf(n, raws[..m], i, j) + [raws[m].At(n, i, j).latency];
    }
  }

  lemma LastSnapshot(n: nat, alpha: real, smooth: Matrices, raw: Matrices, smooth': Matrices, raw': Matrices, i: nat, j: nat)
    requires smooth.Valid(n) && raw.Valid(n) && smooth'.Valid(n) && raw'.Valid(n) && i < n && j < n
    requires CollectedUpTo(n, alpha, smooth, raw, smooth', raw', n, 0)
    ensures smooth'.At(n, i, j) == Collected(alpha, smooth.At(n, i, j), raw.At(n, i, j))
  {
  }

  lemma SmoothedNext(alpha: real, start: Cell, rates: seq<int>, latencies: seq<real>, raw: Cell)
    ensures Cell(Smoothed(alpha, start.rate, rates + [raw.rate]), SmoothedLatencies(alpha, start.latency, latencies + [raw.latency]))
         == Collected(alpha, Cell(Smoothed(alpha, start.rate, rates), SmoothedLatencies(alpha, start.latency, latencies)), raw)
  {
    assert (rates + [raw.rate])[..|rates|] == rates && (latencies + [raw.latency])[..|latencies|] == latencies;
  }
}
