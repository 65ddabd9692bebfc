/** The organizer's scores (simgrid/organizer/hpvc.c:1037-1117): H of every VM, the VM to move, and nextH of every PM. */
module Scoring {
  import opened RealSums
  import opened Traffic

  ghost predicate Square<T>(m: seq<seq<T>>, n: nat) {
    |m| == n && forall i :: 0 <= i < n ==> |m[i]| == n
  }

  /** Smoothed rates and latencies, indexed by sender and receiver. */
  datatype Matrices = Matrices(rate: seq<seq<int>>, latency: seq<seq<real>>) {
    ghost predicate Valid(n: nat) {
      Square(rate, n) && Square(latency, n)
    }

    /** No rate or latency is negative. */
    ghost predicate NonNegative(n: nat)
      requires Valid(n)
    {
      forall i, j :: 0 <= i < n && 0 <= j < n ==> rate[i][j] >= 0 && latency[i][j] >= 0.0
    }

    function At(n: nat, i: nat, j: nat): Cell
      requires Valid(n) && i < n && j < n
    {
      Cell(rate[i][j], latency[i][j])
    }

    /** `m` is this with the cell of one pair replaced. */
    ghost predicate SetTo(n: nat, i: nat, j: nat, c: Cell, m: Matrices)
      requires Valid(n) && m.Valid(n)
    {
      forall k, l :: 0 <= k < n && 0 <= l < n ==> m.At(n, k, l) == if k == i && l == j then c else At(n, k, l)
    }

    /** The traffic of an ordered pair: rate times latency. */
    function Weight(n: nat, i: nat, j: nat): real
      requires Valid(n) && i < n && j < n
    {
      rate[i][j] as real * latency[i][j]
    }
  }

  /** Traffic VM `i` sends to, and receives from, the first `k` VMs. */
  function Sent(t: Matrices, n: nat, i: nat, k: nat): real
    requires t.Valid(n) && i < n && k <= n
  {
    if k == 0 then 0.0 else Sent(t, n, i, k - 1) + t.Weight(n, i, k - 1)
  }

  function Received(t: Matrices, n: nat, i: nat, k: nat): real
    requires t.Valid(n) && i < n && k <= n
  {
    if k == 0 then 0.0 else Received(t, n, i, k - 1) + t.Weight(n, k - 1, i)
  }

  /** H: what the loop over all partners adds up for VM `i`. */
  function VmScore(t: Matrices, n: nat, i: nat, k: nat): real
    requires t.Valid(n) && i < n && k <= n
  {
    if k == 0 then 0.0 else VmScore(t, n, i, k - 1) + t.Weight(n, i, k - 1) + t.Weight(n, k - 1, i)
  }

  function TotalScore(t: Matrices, n: nat, m: nat): real
    requires t.Valid(n) && m <= n
  {
    if m == 0 then 0.0 else TotalScore(t, n, m - 1) + VmScore(t, n, m - 1, n)
  }

  /** Traffic over all ordered pairs (i, j) with i < m and j < k, by senders and by receivers. */
  function TotalSent(t: Matrices, n: nat, m: nat, k: nat): real
    requires t.Valid(n) && m <= n && k <= n
  {
    if m == 0 then 0.0 else TotalSent(t, n, m - 1, k) + Sent(t, n, m - 1, k)
  }

  function TotalReceived(t: Matrices, n: nat, m: nat, k: nat): real
    requires t.Valid(n) && m <= n && k <= n
  {
    if k == 0 then 0.0 else TotalReceived(t, n, m, k - 1) + Received(t, n, k - 1, m)
  }

  lemma {:induction false} ScoreSplits(t: Matrices, n: nat, i: nat, k: nat)
    requires t.Valid(n) && i < n && k <= n
    ensures VmScore(t, n, i, k) == Sent(t, n, i, k) + Received(t, n, i, k)
  {
    if k > 0 { ScoreSplits(t, n, i, k - 1); }
  }

  lemma {:induction false} OneMoreReceiver(t: Matrices, n: nat, m: nat, k: nat)
    requires t.Valid(n) && m <= n && k < n
    ensures TotalSent(t, n, m, k + 1) == TotalSent(t, n, m, k) + Received(t, n, k, m)
  {
    if m > 0 { OneMoreReceiver(t, n, m - 1, k); }
  }

  lemma {:induction false} NoReceivers(t: Matrices, n: nat, m: nat)
    requires t.Valid(n) && m <= n
    ensures TotalSent(t, n, m, 0) == 0.0
  {
    if m > 0 { NoReceivers(t, n, m - 1); }
  }

  /** Summing by senders or by receivers gives the same. */
  lemma {:induction false} SentIsReceived(t: Matrices, n: nat, m: nat, k: nat)
    requires t.Valid(n) && m <= n && k <= n
    ensures TotalSent(t, n, m, k) == TotalReceived(t, n, m, k)
  {
    if k == 0 {
      NoReceivers(t, n, m);
    } else {
      SentIsReceived(t, n, m, k - 1);
      OneMoreReceiver(t, n, m, k - 1);
    }
  }

  lemma {:induction false} TotalScoreSplits(t: Matrices, n: nat, m: nat)
    requires t.Valid(n) && m <= n
    ensures TotalScore(t, n, m) == TotalSent(t, n, m, n) + TotalReceived(t, n, n, m)
  {
    if m > 0 {
      TotalScoreSplits(t, n, m - 1);
      ScoreSplits(t, n, m - 1, n);
    }
  }

  /** Double counting: the scores of all VMs add up to twice the traffic over all ordered pairs, the diagonal included. */
  lemma ScoresCountTrafficTwice(t: Matrices, n: nat)
    requires t.Valid(n)
    ensures TotalScore(t, n, n) == 2.0 * TotalSent(t, n, n, n)
  {
    TotalScoreSplits(t, n, n);
    SentIsReceived(t, n, n, n);
  }

  /** The VM to move: the first of greatest H other than the last one moved; VM 0 with currentH 0 if no other H is positive. */
  ghost predicate IsCandidate(h: seq<real>, last: int, candidate: nat, currentH: real) {
    && (forall i :: 0 <= i < |h| && i != last ==> h[i] <= currentH)
    && (if exists i :: 0 <= i < |h| && i != last && h[i] > 0.0
        then candidate < |h| && candidate != last && currentH == h[candidate] > 0.0
             && forall i :: 0 <= i < candidate && i != last ==> h[i] < currentH
        else candidate == 0 && currentH == 0.0)
  }

  ghost predicate AllBelow(rec: seq<nat>, n: nat) {
    forall s :: 0 <= s < |rec| ==> rec[s] < n
  }

  /** Summed latency between the VMs of a record and VM `j`, both ways, and the averages the code forms. */
  ghost function LatencyTo(t: Matrices, n: nat, rec: seq<nat>, j: nat): real
    requires t.Valid(n) && j < n && AllBelow(rec, n)
  {
    if rec == [] then 0.0 else LatencyTo(t, n, rec[..|rec| - 1], j) + t.latency[rec[|rec| - 1]][j]
  }

  ghost function LatencyFrom(t: Matrices, n: nat, rec: seq<nat>, j: nat): real
    requires t.Valid(n) && j < n && AllBelow(rec, n)
  {
    if rec == [] then 0.0 else LatencyFrom(t, n, rec[..|rec| - 1], j) + t.latency[j][rec[|rec| - 1]]
  }

  function Average(sum: real, count: nat): real {
    if count > 0 then sum / count as real else INITIAL_LATENCY
  }

  /** Rate of VM `c` to and from VM `j`, times the average latencies of the record. */
  ghost function PairTo(t: Matrices, n: nat, rec: seq<nat>, c: nat, j: nat): real
    requires t.Valid(n) && c < n && j < n && AllBelow(rec, n)
  {
    t.rate[c][j] as real * Average(LatencyTo(t, n, rec, j), |rec|)
  }

  ghost function PairFrom(t: Matrices, n: nat, rec: seq<nat>, c: nat, j: nat): real
    requires t.Valid(n) && c < n && j < n && AllBelow(rec, n)
  {
    t.rate[j][c] as real * Average(LatencyFrom(t, n, rec, j), |rec|)
  }

  /** What the pairs of VM `c` with every VM would come to if its latencies were those of the VMs in `rec`. */
  ghost function PairGains(t: Matrices, n: nat, rec: seq<nat>, c: nat): seq<real>
    requires t.Valid(n) && c < n && AllBelow(rec, n)
  {
    seq(n, j requires 0 <= j < n => PairTo(t, n, rec, c, j) + PairFrom(t, n, rec, c, j))
  }

  /** nextH before the penalty. */
  ghost function PmScore(t: Matrices, n: nat, rec: seq<nat>, c: nat): real
    requires t.Valid(n) && c < n && AllBelow(rec, n)
  {
    Sum(PairGains(t, n, rec, c))
  }

  /** What the traffic of VM `c` with the first `k` VMs would come to with the latencies of VM `a`. */
  function ScoreAs(t: Matrices, n: nat, c: nat, a: nat, k: nat): real
    requires t.Valid(n) && c < n && a < n && k <= n
  {
    if k == 0 then 0.0
    else
      var j := k - 1;
      ScoreAs(t, n, c, a, j) + t.rate[c][j] as real * t.latency[a][j] + t.rate[j][c] as real * t.latency[j][a]
  }

  /** The sum of these over the VMs of a record. */
  ghost function ScoresAs(t: Matrices, n: nat, rec: seq<nat>, c: nat, k: nat): real
    requires t.Valid(n) && c < n && k <= n && AllBelow(rec, n)
  {
    if rec == [] then 0.0 else ScoresAs(t, n, rec[..|rec| - 1], c, k) + ScoreAs(t, n, c, rec[|rec| - 1], k)
  }

  lemma {:induction false} ScoresAsNext(t: Matrices, n: nat, rec: seq<nat>, c: nat, k: nat)
    requires t.Valid(n) && c < n && k < n && AllBelow(rec, n)
    ensures ScoresAs(t, n, rec, c, k + 1)
         == ScoresAs(t, n, rec, c, k) + t.rate[c][k] as real * LatencyTo(t, n, rec, k)
          + t.rate[k][c] as real * LatencyFrom(t, n, rec, k)
  {
    if rec != [] {
      var init, last := rec[..|rec| - 1], rec[|rec| - 1];
      ScoresAsNext(t, n, init, c, k);
      Distribute(t.rate[c][k] as real, LatencyTo(t, n, init, k), t.latency[last][k]);
      Distribute(t.rate[k][c] as real, LatencyFrom(t, n, init, k), t.latency[k][last]);
    }
  }

  lemma {:induction false} ScoresAsNone(t: Matrices, n: nat, rec: seq<nat>, c: nat)
    requires t.Valid(n) && c < n && AllBelow(rec, n)
    ensures ScoresAs(t, n, rec, c, 0) == 0.0
  {
    if rec != [] { ScoresAsNone(t, n, rec[..|rec| - 1], c); }
  }

  lemma Distribute(x: real, a: real, b: real)
    ensures x * (a + b) == x * a + x * b
  {
  }

  lemma Averaged(count: nat, rate: real, sum: real)
    requires count > 0
    ensures count as real * (rate * Average(sum, count)) == rate * sum
  {
    var mean := Average(sum, count);
    assert mean * count as real == sum;
    assert count as real * (rate * mean) == rate * (mean * count as real);
  }

  lemma GainIsMean(t: Matrices, n: nat, rec: seq<nat>, c: nat, j: nat)
    requires t.Valid(n) && c < n && j < n && AllBelow(rec, n) && rec != []
    ensures Times(|rec| as real, PairGains(t, n, rec, c)[j])
         == t.rate[c][j] as real * LatencyTo(t, n, rec, j) + t.rate[j][c] as real * LatencyFrom(t, n, rec, j)
  {
    Averaged(|rec|, t.rate[c][j] as real, LatencyTo(t, n, rec, j));
    Averaged(|rec|, t.rate[j][c] as real, LatencyFrom(t, n, rec, j));
    Distribute(|rec| as real, PairTo(t, n, rec, c, j), PairFrom(t, n, rec, c, j));
  }

  function Times(x: real, y: real): real { x * y }

  lemma {:induction false} ScaledSum(x: real, s: seq<real>, scaled: seq<real>)
    requires |s| == |scaled| && forall j :: 0 <= j < |s| ==> scaled[j] == Times(x, s[j])
    ensures Sum(scaled) == Times(x, Sum(s))
  {
    if s != [] {
      var m := |s| - 1;
      ScaledSum(x, s[..m], scaled[..m]);
      Distribute(x, Sum(s[..m]), s[m]);
    }
  }

  /** The terms of the sum over the partners, times the number of VMs on the PM. */
  ghost function Terms(t: Matrices, n: nat, rec: seq<nat>, c: nat): seq<real>
    requires t.Valid(n) && c < n && AllBelow(rec, n)
  {
    seq(n, j requires 0 <= j < n =>
      t.rate[c][j] as real * LatencyTo(t, n, rec, j) + t.rate[j][c] as real * LatencyFrom(t, n, rec, j))
  }

  lemma {:induction false} TermsUpTo(t: Matrices, n: nat, rec: seq<nat>, c: nat, k: nat)
    requires t.Valid(n) && c < n && k <= n && AllBelow(rec, n)
    ensures Sum(Terms(t, n, rec, c)[..k]) == ScoresAs(t, n, rec, c, k)
  {
    var terms := Terms(t, n, rec, c);
    if k == 0 {
      ScoresAsNone(t, n, rec, c);
    } else {
      TermsUpTo(t, n, rec, c, k - 1);
      assert terms[..k][..k - 1] == terms[..k - 1];
      ScoresAsNext(t, n, rec, c, k - 1);
    }
  }

  lemma ScoreTimes(t: Matrices, n: nat, rec: seq<nat>, c: nat)
    requires t.Valid(n) && c < n && AllBelow(rec, n) && rec != []
    ensures Times(|rec| as real, PmScore(t, n, rec, c)) == ScoresAs(t, n, rec, c, n)
  {
    var g, terms := PairGains(t, n, rec, c), Terms(t, n, rec, c);
    forall j | 0 <= j < n ensures terms[j] == Times(|rec| as real, g[j]) {
      GainIsMean(t, n, rec, c, j);
    }
    ScaledSum(|rec| as real, g, terms);
    assert terms[..n] == terms;
    TermsUpTo(t, n, rec, c, n);
  }

  /** A PM's score is the mean, over the VMs on it, of what the candidate's traffic would come to with that VM's latencies. */
  lemma ScoreIsMean(t: Matrices, n: nat, rec: seq<nat>, c: nat)
    requires t.Valid(n) && c < n && AllBelow(rec, n) && rec != []
    ensures |rec| as real * PmScore(t, n, rec, c) == ScoresAs(t, n, rec, c, n)
  {
    ScoreTimes(t, n, rec, c);
  }

  /** Messages VM `c` exchanges with the first `k` VMs, both ways. */
  function Rates(t: Matrices, n: nat, c: nat, k: nat): int
    requires t.Valid(n) && c < n && k <= n
  {
    if k == 0 then 0 else Rates(t, n, c, k - 1) + t.rate[c][k - 1] + t.rate[k - 1][c]
  }

  lemma {:induction false} EmptyUpTo(t: Matrices, n: nat, c: nat, k: nat)
    requires t.Valid(n) && c < n && k <= n
    ensures Sum(PairGains(t, n, [], c)[..k]) == 0.006 * Rates(t, n, c, k) as real
  {
    var g := PairGains(t, n, [], c);
    if k > 0 {
      EmptyUpTo(t, n, c, k - 1);
      assert g[..k][..k - 1] == g[..k - 1];
    }
  }

  /** An empty PM's score: every message at the initial latency. */
  lemma EmptyScore(t: Matrices, n: nat, c: nat)
    requires t.Valid(n) && c < n
    ensures PmScore(t, n, [], c) == 0.006 * Rates(t, n, c, n) as real
  {
    var g := PairGains(t, n, [], c);
    assert g[..n] == g;
    EmptyUpTo(t, n, c, n);
  }

  /** The down time charged for a move from PM `home` to PM `i`. PM 10 is in neither group, so moves from or to it always cost
      the down time between clusters. */
  function Penalty(home: nat, i: nat, same: real, other: real): real {
    if (home < 10 && i < 10) || (home > 10 && i > 10) then same else other
  }

  /** So PM 10 is not even in one group with itself, and the others are in two groups, below and above it. */
  lemma PenaltyGroups(home: nat, i: nat, same: real, other: real)
    requires same != other
    ensures home == 10 || i == 10 ==> Penalty(home, i, same, other) == other
    ensures home != 10 && i != 10 ==> (Penalty(home, i, same, other) == same <==> (home < 10 <==> i < 10))
  {
  }

  lemma {:induction false} LatenciesNonNegative(t: Matrices, n: nat, rec: seq<nat>, j: nat)
    requires t.Valid(n) && t.NonNegative(n) && j < n && AllBelow(rec, n)
    ensures LatencyTo(t, n, rec, j) >= 0.0 && LatencyFrom(t, n, rec, j) >= 0.0
  {
    if rec != [] { LatenciesNonNegative(t, n, rec[..|rec| - 1], j); }
  }

  lemma AverageNonNegative(sum: real, count: nat)
    requires sum >= 0.0
    ensures Average(sum, count) >= 0.0
  {
  }

  lemma ProductNonNegative(x: real, y: real)
    requires x >= 0.0 && y >= 0.0
    ensures x * y >= 0.0
  {
  }

  lemma {:induction false} SumNonNegative(s: seq<real>)
    requires forall i :: 0 <= i < |s| ==> s[i] >= 0.0
    ensures Sum(s) >= 0.0
  {
    if s != [] { SumNonNegative(s[..|s| - 1]); }
  }

  lemma PairsNonNegative(t: Matrices, n: nat, rec: seq<nat>, c: nat, j: nat)
    requires t.Valid(n) && t.NonNegative(n) && c < n && j < n && AllBelow(rec, n)
    ensures PairTo(t, n, rec, c, j) >= 0.0 && PairFrom(t, n, rec, c, j) >= 0.0
  {
    LatenciesNonNegative(t, n, rec, j);
    AverageNonNegative(LatencyTo(t, n, rec, j), |rec|);
    AverageNonNegative(LatencyFrom(t, n, rec, j), |rec|);
    ProductNonNegative(t.rate[c][j] as real, Average(LatencyTo(t, n, rec, j), |rec|));
    ProductNonNegative(t.rate[j][c] as real, Average(LatencyFrom(t, n, rec, j), |rec|));
  }

  lemma PmScoreNonNegative(t: Matrices, n: nat, rec: seq<nat>, c: nat)
    requires t.Valid(n) && t.NonNegative(n) && c < n && AllBelow(rec, n)
    ensures PmScore(t, n, rec, c) >= 0.0
  {
    var g := PairGains(t, n, rec, c);
    forall j | 0 <= j < n ensures g[j] >= 0.0 {
      PairsNonNegative(t, n, rec, c, j);
    }
    SumNonNegative(g);
  }

  lemma PairAlone(t: Matrices, n: nat, c: nat, j: nat)
    requires t.Valid(n) && c < n && j < n
    ensures PairTo(t, n, [c], c, j) == t.Weight(n, c, j) && PairFrom(t, n, [c], c, j) == t.Weight(n, j, c)
  {
    assert [c][..0] == [];
    assert LatencyTo(t, n, [], j) == 0.0 && LatencyFrom(t, n, [], j) == 0.0;
  }

  lemma {:induction false} AloneUpTo(t: Matrices, n: nat, c: nat, k: nat)
    requires t.Valid(n) && c < n && k <= n
    ensures Sum(PairGains(t, n, [c], c)[..k]) == VmScore(t, n, c, k)
  {
    var g := PairGains(t, n, [c], c);
    if k > 0 {
      AloneUpTo(t, n, c, k - 1);
      PairAlone(t, n, c, k - 1);
      assert g[..k][..k - 1] == g[..k - 1];
    }
  }

  /** A VM alone on its PM scores there exactly its H, so the move "to itself" never gains anything. */
  lemma AloneScoresItsH(t: Matrices, n: nat, c: nat)
    requires t.Valid(n) && c < n
    ensures PmScore(t, n, [c], c) == VmScore(t, n, c, n)
  {
    var g := PairGains(t, n, [c], c);
    assert g[..n] == g;
    AloneUpTo(t, n, c, n);
  }
}
