/** One period of `organization_manager` (simgrid/organizer/hpvc.c:1006-1216) and what holds over all periods of a run. */
module OrganizationManager {
  import opened RealSums
  import opened VmRecords
  import opened PmTable
  import opened Traffic
  import opened Smoothing
  import opened Scoring
  import opened Ranking
  import opened TrafficBoard

  /** The inner score loop: H of VM `i`. */
  method ScoreVm(board: Board, h: array<real>, i: nat, ghost t: Matrices)
    requires board.Valid() && board.Abs() == t && h.Length == board.n && i < board.n && h[i] == 0.0
    modifies h
    ensures board.Valid() && board.Abs() == t && h[i] == VmScore(t, board.n, i, board.n)
    ensures forall k :: 0 <= k < h.Length && k != i ==> h[k] == old(h[k])
  {
    ghost var before := h[..];
    for j := 0 to board.n
      invariant h[i] == VmScore(t, board.n, i, j)
      invariant forall k :: 0 <= k < h.Length && k != i ==> h[k] == before[k]
    {
      AddTraffic(board, h, i, j, t);
    }
  }

  /** Both directions of one pair. */
  method AddTraffic(board: Board, h: array<real>, i: nat, j: nat, ghost t: Matrices)
    requires board.Valid() && board.Abs() == t && h.Length == board.n && i < board.n && j < board.n
    requires h[i] == VmScore(t, board.n, i, j)
    modifies h
    ensures board.Valid() && board.Abs() == t && h[i] == VmScore(t, board.n, i, j + 1)
    ensures forall k :: 0 <= k < h.Length && k != i ==> h[k] == old(h[k])
  {
    var out := board.WeightOf(i, j);
    var back := board.WeightOf(j, i);
    h[i] := h[i] + out;
    h[i] := h[i] + back;
  }

  ghost function VmScores(t: Matrices, n: nat): (r: seq<real>)
    requires t.Valid(n)
    ensures |r| == n
  {
    seq(n, i requires 0 <= i < n => VmScore(t, n, i, n))
  }

  lemma {:induction false} ScoresTotal(t: Matrices, n: nat, m: nat)
    requires t.Valid(n) && m <= n
    ensures Sum(VmScores(t, n)[..m]) == TotalScore(t, n, m)
  {
    if m > 0 {
      ScoresTotal(t, n, m - 1);
      assert VmScores(t, n)[..m][..m - 1] == VmScores(t, n)[..m - 1];
    }
  }

  /** Double counting, of the values the code fills `H` with: they add up to twice the traffic of all ordered pairs. */
  lemma ScoresSum(t: Matrices, n: nat)
    requires t.Valid(n)
    ensures Sum(VmScores(t, n)) == 2.0 * TotalSent(t, n, n, n)
  {
    ScoresTotal(t, n, n);
    assert VmScores(t, n)[..n] == VmScores(t, n);
    ScoresCountTrafficTwice(t, n);
  }

  /** The score loops fill `H` from the smoothed matrices. */
  method ScoreVms(board: Board, h: array<real>, ghost t: Matrices)
    requires board.Valid() && board.Abs() == t && h.Length == board.n
    modifies h
    ensures board.Valid() && board.Abs() == t && h[..] == VmScores(t, board.n)
  {
    for i := 0 to board.n
      invariant board.Valid() && board.Abs() == t
      invariant forall k :: 0 <= k < i ==> h[k] == VmScore(t, board.n, k, board.n)
    {
      h[i] := 0.0;
      ScoreVm(board, h, i, t);
    }
  }

  method PickCandidate(h: array<real>, last: int) returns (candidate: nat, currentH: real)
    ensures IsCandidate(h[..], last, candidate, currentH)
  {
    candidate, currentH := 0, 0.0;
    for i := 0 to h.Length
      invariant IsCandidate(h[..i], last, candidate, currentH)
    {
      if h[i] > currentH && i != last {
        currentH := h[i];
        candidate := i;
      }
      CandidateStep(h[..i], h[i], last);
      assert h[..i + 1] == h[..i] + [h[i]];
    }
    assert h[..h.Length] == h[..];
  }

  lemma CandidateStep(h: seq<real>, x: real, last: int)
    ensures forall c, m :: IsCandidate(h, last, c, m) ==>
              if x > m && |h| != last then IsCandidate(h + [x], last, |h|, x) else IsCandidate(h + [x], last, c, m)
  {
  }

  lemma LatencyOfNext(t: Matrices, n: nat, used: seq<nat>, k: nat, j: nat)
    requires t.Valid(n) && AllBelow(used, n) && k < |used| && j < n
    ensures LatencyTo(t, n, used[..k + 1], j) == LatencyTo(t, n, used[..k], j) + t.latency[used[k]][j]
    ensures LatencyFrom(t, n, used[..k + 1], j) == LatencyFrom(t, n, used[..k], j) + t.latency[j][used[k]]
  {
    assert used[..k + 1][..k] == used[..k];
  }

  /** The loop over the VMs of a PM: summed latencies to and from VM `j`, then the averages. */
  method AverageLatencies(board: Board, data: PmData, j: nat, ghost t: Matrices) returns (to: real, from: real)
    requires board.Valid() && board.Abs() == t && data.Valid() && j < board.n
    requires AllBelow(data.Used(), board.n)
    ensures to == Average(LatencyTo(t, board.n, data.Used(), j), |data.Used()|)
    ensures from == Average(LatencyFrom(t, board.n, data.Used(), j), |data.Used()|)
  {
    ghost var used := data.Used();
    to, from := 0.0, 0.0;
    for k := 0 to data.numberOfVMs
      invariant to == LatencyTo(t, board.n, used[..k], j) && from == LatencyFrom(t, board.n, used[..k], j)
    {
      var agent := data.slots[k];
      assert agent == used[k];
      LatencyOfNext(t, board.n, used, k, j);
      to := to + board.latency[agent, j];
      from := from + board.latency[j, agent];
    }
    assert used[..|used|] == used;
    if data.numberOfVMs > 0 {
      to, from := to / data.numberOfVMs as real, from / data.numberOfVMs as real;
    } else {
      to, from := INITIAL_LATENCY, INITIAL_LATENCY;
    }
  }

  method PairScores(board: Board, data: PmData, c: nat, j: nat, ghost t: Matrices) returns (to: real, from: real)
    requires board.Valid() && board.Abs() == t && data.Valid() && c < board.n && j < board.n
    requires AllBelow(data.Used(), board.n)
    ensures to == PairTo(t, board.n, data.Used(), c, j) && from == PairFrom(t, board.n, data.Used(), c, j)
  {
    to, from := AverageLatencies(board, data, j, t);
    to := board.rate[c, j] as real * to;
    from := board.rate[j, c] as real * from;
  }

  /** The loop over all partners of the candidate, for one PM. */
  method ScorePm(board: Board, data: PmData, c: nat, ghost t: Matrices) returns (score: real)
    requires board.Valid() && board.Abs() == t && data.Valid() && c < board.n && AllBelow(data.Used(), board.n)
    ensures score == PmScore(t, board.n, data.Used(), c)
  {
    ghost var gains := PairGains(t, board.n, data.Used(), c);
    score := 0.0;
    for j := 0 to board.n
      invariant score == Sum(gains[..j])
    {
      var to, from := PairScores(board, data, c, j, t);
      score := score + to;
      score := score + from;
      assert gains[..j + 1][..j] == gains[..j];
    }
    assert gains[..board.n] == gains;
  }

  /** Records that name only VMs below `n`. */
  ghost predicate RecordsOver(records: seq<PmData>, n: nat) {
    forall m :: 0 <= m < |records| ==> records[m].Valid() && AllBelow(records[m].Used(), n)
  }

  ghost function PmScores(t: Matrices, n: nat, records: seq<PmData>, c: nat): (r: seq<real>)
    requires t.Valid(n) && c < n && RecordsOver(records, n)
    ensures |r| == |records|
  {
    seq(|records|, m requires 0 <= m < |records| => PmScore(t, n, records[m].Used(), c))
  }

  method ScorePms(board: Board, pms: array<PmData>, nextH: array<real>, c: nat, ghost t: Matrices, ghost records: seq<PmData>)
    requires board.Valid() && board.Abs() == t && c < board.n && pms.Length == nextH.Length
    requires pms[..] == records && RecordsOver(records, board.n)
    modifies nextH
    ensures board.Valid() && board.Abs() == t && pms[..] == records
    ensures nextH[..] == PmScores(t, board.n, records, c)
  {
    ghost var scores := PmScores(t, board.n, records, c);
    for i := 0 to pms.Length
      invariant board.Valid() && board.Abs() == t && pms[..] == records
      invariant nextH[..i] == scores[..i]
    {
      var data := pms[i];
      assert data == records[i];
      nextH[i] := ScorePm(board, data, c, t);
    }
    assert nextH[..] == nextH[..pms.Length] && scores[..pms.Length] == scores;
  }

  function WithPenalties(scores: seq<real>, home: nat, same: real, other: real): (r: seq<real>)
    ensures |r| == |scores|
  {
    seq(|scores|, m requires 0 <= m < |scores| => scores[m] + Penalty(home, m, same, other))
  }

  method AddPenalties(nextH: array<real>, home: nat, same: real, other: real)
    modifies nextH
    ensures nextH[..] == WithPenalties(old(nextH[..]), home, same, other)
    ensures forall m :: 0 <= m < nextH.Length ==>
              nextH[m] == old(nextH[m]) + if (home < 10 && m < 10) || (home > 10 && m > 10) then same else other
  {
    for i := 0 to nextH.Length
      invariant forall m :: 0 <= m < nextH.Length ==>
                  nextH[m] == old(nextH[m]) + if m < i then Penalty(home, m, same, other) else 0.0
    {
      if (home < 10 && i < 10) || (home > 10 && i > 10) {
        nextH[i] := nextH[i] + same;
      } else {
        nextH[i] := nextH[i] + other;
      }
    }
  }

  /** The VM a period looks at, its H, and where it goes. */
  datatype Decision = Decision(candidate: nat, currentH: real, target: Target)

  /** nextH of every PM for candidate `c`: the PM's score plus the down time of the move. */
  ghost function NextH(t: Matrices, n: nat, records: seq<PmData>, runsOn: seq<nat>, c: nat, same: real, other: real): (r: seq<real>)
    requires t.Valid(n) && RecordsOver(records, n) && |runsOn| == n && c < n
    ensures |r| == |records|
  {
    WithPenalties(PmScores(t, n, records, c), runsOn[c], same, other)
  }

  function Counts(records: seq<PmData>): (c: seq<nat>)
    ensures |c| == |records|
  {
    seq(|records|, m requires 0 <= m < |records| => records[m].numberOfVMs)
  }

  /** What a period decides, from the smoothed matrices, the table and the VM moved last. */
  ghost predicate Decides(t: Matrices, n: nat, records: seq<PmData>, runsOn: seq<nat>, last: int, same: real, other: real,
                          d: Decision)
    requires t.Valid(n) && RecordsOver(records, n) && |runsOn| == n
  {
    && IsCandidate(VmScores(t, n), last, d.candidate, d.currentH)
    && d.candidate < n
    && IsTarget(NextH(t, n, records, runsOn, d.candidate, same, other), Counts(records), PM_CAPACITY, d.currentH, d.target)
  }

  /** What a PM is compared by: its score for the candidate, and the down time of a move there from the PM the candidate runs on. */
  lemma NextHInNumbers(t: Matrices, n: nat, records: seq<PmData>, runsOn: seq<nat>, c: nat, same: real, other: real, m: nat)
    requires t.Valid(n) && RecordsOver(records, n) && |runsOn| == n && c < n && m < |records|
    ensures NextH(t, n, records, runsOn, c, same, other)[m]
         == PmScore(t, n, records[m].Used(), c)
          + if (runsOn[c] < 10 && m < 10) || (runsOn[c] > 10 && m > 10) then same else other
  {
  }

  /** What a decision means: the candidate is the first VM of greatest H but for the last one moved; the target has one of its five
      slots free, gains more than 5.5 and comes before all others that have one free; without a target none of those gains more. */
  lemma DecisionMeans(t: Matrices, n: nat, records: seq<PmData>, runsOn: seq<nat>, last: int, same: real, other: real, d: Decision)
    requires t.Valid(n) && RecordsOver(records, n) && |runsOn| == n && Decides(t, n, records, runsOn, last, same, other, d)
    ensures forall i :: 0 <= i < n && i != last ==> VmScore(t, n, i, n) <= d.currentH
    ensures d.currentH > 0.0 ==>
              && d.candidate != last && d.currentH == VmScore(t, n, d.candidate, n)
              && forall i :: 0 <= i < d.candidate && i != last ==> VmScore(t, n, i, n) < d.currentH
    ensures d.currentH <= 0.0 ==> d.currentH == 0.0 && d.candidate == 0
    ensures var nextH := NextH(t, n, records, runsOn, d.candidate, same, other);
      match d.target
      case Pm(m) =>
        && m < |records| && records[m].numberOfVMs < 5 && d.currentH - nextH[m] > 5.5
        && forall k :: 0 <= k < |records| && k != m && records[k].numberOfVMs < 5 ==>
             nextH[m] < nextH[k] || (nextH[m] == nextH[k] && m < k)
      case NoTarget =>
        forall k :: 0 <= k < |records| && records[k].numberOfVMs < 5 ==> d.currentH - nextH[k] <= 5.5
  {
    var nextH := NextH(t, n, records, runsOn, d.candidate, same, other);
    forall i | 0 <= i < n && i != last ensures VmScore(t, n, i, n) <= d.currentH {
      assert VmScores(t, n)[i] <= d.currentH;
    }
    forall i | d.currentH > 0.0 && 0 <= i < d.candidate && i != last ensures VmScore(t, n, i, n) < d.currentH {
      assert VmScores(t, n)[i] < d.currentH;
    }
    if d.target.Pm? {
      forall k | 0 <= k < |records| && k != d.target.index && records[k].numberOfVMs < 5
        ensures RanksBefore(nextH, d.target.index, k)
      {
        assert Free(Counts(records), PM_CAPACITY, k);
      }
    } else {
      forall k | 0 <= k < |records| && records[k].numberOfVMs < 5 ensures d.currentH - nextH[k] <= 5.5 {
        NoTargetMeansNoGain(nextH, Counts(records), PM_CAPACITY, d.currentH, k);
      }
    }
  }

  /** No nextH is negative, so a move needs an H above MIN_GAIN and never picks the VM that was moved last. */
  lemma MovePicksAnotherVm(t: Matrices, n: nat, records: seq<PmData>, runsOn: seq<nat>, last: int, same: real, other: real,
                           d: Decision)
    requires t.Valid(n) && t.NonNegative(n) && RecordsOver(records, n) && |runsOn| == n
    requires same >= 0.0 && other >= 0.0
    requires Decides(t, n, records, runsOn, last, same, other, d) && d.target.Pm?
    ensures d.currentH > MIN_GAIN && d.candidate != last
    ensures d.target.index < |records| && records[d.target.index].numberOfVMs < PM_CAPACITY
  {
    var m := d.target.index;
    PmScoreNonNegative(t, n, records[m].Used(), d.candidate);
    assert NextH(t, n, records, runsOn, d.candidate, same, other)[m] >= 0.0;
  }

  /** A decision can be carried out. */
  lemma Carryable(t: Matrices, n: nat, records: seq<PmData>, runsOn: seq<nat>, last: int, same: real, other: real, d: Decision)
    requires t.Valid(n) && t.NonNegative(n) && RecordsOver(records, n) && |runsOn| == n
    requires same >= 0.0 && other >= 0.0 && Decides(t, n, records, runsOn, last, same, other, d)
    ensures d.candidate < n
    ensures d.target.Pm? ==> d.candidate != last && d.target.index < |records| && records[d.target.index].numberOfVMs < PM_CAPACITY
  {
    if d.target.Pm? { MovePicksAnotherVm(t, n, records, runsOn, last, same, other, d); }
  }

  lemma PartitionInRange(records: seq<PmData>, runsOn: seq<nat>)
    requires Partition(records, runsOn)
    ensures RecordsOver(records, |runsOn|)
  {
    forall m | 0 <= m < |records| ensures AllBelow(records[m].Used(), |runsOn|) {
      ListedInRange(records[m].Used(), runsOn, m, |runsOn|);
    }
  }

  /** Score, choose the VM, score the PMs for it, rank them and pick the target. */
  method Decide(smooth: Board, pms: array<PmData>, runsOn: seq<nat>, last: int, same: real, other: real,
                h: array<real>, nextH: array<real>, ghost t: Matrices, ghost records: seq<PmData>) returns (d: Decision)
    requires smooth.Valid() && smooth.Abs() == t && smooth.n >= 1 && |runsOn| == smooth.n
    requires pms[..] == records && RecordsOver(records, smooth.n)
    requires h != nextH && h.Length == smooth.n && nextH.Length == pms.Length
    modifies h, nextH
    ensures Decides(t, smooth.n, records, runsOn, last, same, other, d)
  {
    ScoreVms(smooth, h, t);
    var candidate, currentH := PickCandidate(h, last);
    ScorePms(smooth, pms, nextH, candidate, t, records);
    AddPenalties(nextH, runsOn[candidate], same, other);
    var target := PickTarget(nextH, Counts(pms[..]), PM_CAPACITY, currentH);
    d := Decision(candidate, currentH, target);
  }

  /** No two moves in a row were of the same VM, and `last` is the VM of the last one. */
  ghost predicate MovesAlternate(moved: seq<nat>, last: int) {
    && last == (if moved == [] then -1 else moved[|moved| - 1])
    && forall i, j :: 0 <= i < j < |moved| && j == i + 1 ==> moved[i] != moved[j]
  }

  lemma MovesOnce(moved: seq<nat>, vm: nat)
    requires forall i, j :: 0 <= i < j < |moved| && j == i + 1 ==> moved[i] != moved[j]
    requires moved != [] ==> moved[|moved| - 1] != vm
    ensures MovesAlternate(moved + [vm], vm)
  {
  }

  type Window = map<(nat, nat), seq<real>>

  function Times(w: Window, i: nat, j: nat): seq<real> {
    if (i, j) in w then w[(i, j)] else []
  }

  /** Every raw cell accounts for the messages of its pair since the last snapshot. */
  ghost predicate AllAccounted(t: Matrices, n: nat, w: Window)
    requires t.Valid(n)
  {
    forall i, j :: 0 <= i < n && 0 <= j < n ==> Accounts(t.At(n, i, j), Times(w, i, j))
  }

  function Sending(w: Window, sender: nat, receiver: nat, ok: bool, elapsed: real): Window {
    if ok then w[(sender, receiver) := Times(w, sender, receiver) + [elapsed]] else w
  }

  lemma StartsAccounted(t: Matrices, n: nat)
    requires t.Valid(n) && forall i, j :: 0 <= i < n && 0 <= j < n ==> t.At(n, i, j) == INITIAL
    ensures AllAccounted(t, n, map[])
  {
  }

  lemma SendAccounted(t: Matrices, n: nat, w: Window, t': Matrices, i: nat, j: nat, elapsed: real)
    requires t.Valid(n) && t'.Valid(n) && AllAccounted(t, n, w) && i < n && j < n
    requires t.SetTo(n, i, j, Record(t.At(n, i, j), elapsed), t')
    ensures AllAccounted(t', n, w[(i, j) := Times(w, i, j) + [elapsed]])
  {
    RecordAccounts(t.At(n, i, j), Times(w, i, j), elapsed);
    var w' := w[(i, j) := Times(w, i, j) + [elapsed]];
    forall k, l | 0 <= k < n && 0 <= l < n ensures Accounts(t'.At(n, k, l), Times(w', k, l)) {
      assert (k, l) == (i, j) || Times(w', k, l) == Times(w, k, l);
    }
  }

  lemma SendingAccounted(t: Matrices, n: nat, w: Window, t': Matrices, i: nat, j: nat, ok: bool, elapsed: real)
    requires t.Valid(n) && t'.Valid(n) && AllAccounted(t, n, w) && i < n && j < n
    requires ok ==> t.SetTo(n, i, j, Record(t.At(n, i, j), elapsed), t')
    requires !ok ==> t' == t
    ensures AllAccounted(t', n, Sending(w, i, j, ok, elapsed))
  {
    if ok { SendAccounted(t, n, w, t', i, j, elapsed); }
  }

  class Manager {
    const alpha: real
    const sameDown: real
    const otherDown: real
    const table: Table
    /** What senders write, and the organizer's smoothed copy. */
    const board: Board
    const smooth: Board
    const h: array<real>
    const nextH: array<real>
    var lastCandidateVMIndex: int
    var migrateCounter: nat
    /** The VMs moved so far, in order. */
    ghost var moved: seq<nat>
    /** The times of the messages of every pair since the last snapshot. */
    ghost var window: Window

    /** The PM records partition the VMs, every rate is at least 1 and no latency negative, every raw cell accounts for its
        messages, and no VM was ever moved twice in a row. */
    ghost predicate Valid()
      reads this, table, table.dataOfPMs, board, board.rate, board.latency, smooth, smooth.rate, smooth.latency
    {
      && ValidAlpha(alpha) && sameDown >= 0.0 && otherDown >= 0.0
      && table.Valid() && board.Valid() && smooth.Valid() && table.vms == board.n == smooth.n >= 1
      && board != smooth && board.rate != smooth.rate && board.latency != smooth.latency
      && h.Length == table.vms && nextH.Length == table.hosts && h != nextH
      && AllAccounted(board.Abs(), board.n, window)
      && MovesAlternate(moved, lastCandidateVMIndex) && migrateCounter == |moved|
    }

    constructor (hosts: nat, vms: nat, alpha: real, sameDown: real, otherDown: real)
      requires hosts >= 1 && vms >= hosts && vms % hosts == 0 && vms / hosts <= PM_CAPACITY
      requires ValidAlpha(alpha) && sameDown >= 0.0 && otherDown >= 0.0
      ensures Valid() && moved == [] && window == map[]
      ensures table.vms == vms && table.hosts == hosts && Evenly(table.runsOn, vms / hosts)
    {
      this.alpha, this.sameDown, this.otherDown := alpha, sameDown, otherDown;
      table := new Table(hosts, vms);
      board := new Board(vms);
      smooth := new Board(vms);
      h := new real[vms];
      nextH := new real[hosts];
      lastCandidateVMIndex, migrateCounter, moved, window := -1, 0, [], map[];
      new;
      assert AllAccounted(board.Abs(), vms, map[]) by { StartsAccounted(board.Abs(), vms); }
    }

    /** Carry out a decision to move. */
    method Move(vm: nat, target: nat)
      requires Valid() && vm < table.vms && vm != lastCandidateVMIndex
      requires target < table.hosts && table.dataOfPMs[target].numberOfVMs < PM_CAPACITY
      modifies this, table`runsOn, table.dataOfPMs
      ensures Valid() && table.runsOn == old(table.runsOn)[vm := target] && moved == old(moved) + [vm]
      ensures window == old(window)
    {
      Note(vm);
      table.MigrateVm(vm, target);
    }

    /** The organizer's own notes of a move. */
    method Note(vm: nat)
      requires Valid() && vm != lastCandidateVMIndex
      modifies this`lastCandidateVMIndex, this`migrateCounter, this`moved
      ensures Valid() && moved == old(moved) + [vm]
    {
      lastCandidateVMIndex := vm;
      migrateCounter := migrateCounter + 1;
      MovesOnce(moved, vm);
      moved := moved + [vm];
    }

    /** Decide from the smoothed matrices. */
    method Choose() returns (d: Decision)
      requires Valid()
      modifies h, nextH
      ensures Valid() && RecordsOver(table.dataOfPMs[..], board.n)
      ensures Decides(smooth.Abs(), board.n, table.dataOfPMs[..], table.runsOn, lastCandidateVMIndex, sameDown, otherDown, d)
      ensures d.candidate < table.vms
      ensures d.target.Pm? ==> d.candidate != lastCandidateVMIndex && d.target.index < table.hosts
                               && table.dataOfPMs[d.target.index].numberOfVMs < PM_CAPACITY
    {
      ghost var t, records := smooth.Abs(), table.dataOfPMs[..];
      PartitionInRange(records, table.runsOn);
      d := Decide(smooth, table.dataOfPMs, table.runsOn, lastCandidateVMIndex, sameDown, otherDown, h, nextH, t, records);
      Carryable(t, board.n, records, table.runsOn, lastCandidateVMIndex, sameDown, otherDown, d);
    }

    /** Decide, and carry the decision out. */
    method Reorganize() returns (d: Decision)
      requires Valid()
      modifies this, h, nextH, table`runsOn, table.dataOfPMs
      ensures Valid() && window == old(window) && RecordsOver(old(table.dataOfPMs[..]), board.n)
      ensures Decides(smooth.Abs(), board.n, old(table.dataOfPMs[..]), old(table.runsOn), old(lastCandidateVMIndex),
                      sameDown, otherDown, d)
      ensures d.target.Pm? ==> table.runsOn == old(table.runsOn)[d.candidate := d.target.index]
                               && moved == old(moved) + [d.candidate]
      ensures d.target.NoTarget? ==> table.runsOn == old(table.runsOn) && moved == old(moved)
                                     && table.dataOfPMs[..] == old(table.dataOfPMs[..])
    {
      ghost var t := smooth.Abs();
      d := Choose();
      assert smooth.Abs() == t && table.dataOfPMs[..] == old(table.dataOfPMs[..]);
      if d.target.Pm? {
        Move(d.candidate, d.target.index);
      }
      assert smooth.Abs() == t;
    }

    method Snapshot()
      requires Valid()
      modifies this`window, board.rate, board.latency, smooth.rate, smooth.latency
      ensures Valid() && window == map[]
      ensures CollectedUpTo(board.n, alpha, old(smooth.Abs()), old(board.Abs()), smooth.Abs(), board.Abs(), board.n, 0)
    {
      smooth.Collect(board, alpha);
      window := map[];
      StartsAccounted(board.Abs(), board.n);
    }

    /** One period: collect the traffic, decide, and carry the decision out. */
    method Period() returns (d: Decision)
      requires Valid()
      modifies this, h, nextH, table`runsOn, table.dataOfPMs, board.rate, board.latency, smooth.rate, smooth.latency
      ensures Valid() && window == map[]
      ensures CollectedUpTo(board.n, alpha, old(smooth.Abs()), old(board.Abs()), smooth.Abs(), board.Abs(), board.n, 0)
      ensures RecordsOver(old(table.dataOfPMs[..]), board.n)
      ensures Decides(smooth.Abs(), board.n, old(table.dataOfPMs[..]), old(table.runsOn), old(lastCandidateVMIndex),
                      sameDown, otherDown, d)
      ensures d.target.Pm? ==> table.runsOn == old(table.runsOn)[d.candidate := d.target.index]
                               && moved == old(moved) + [d.candidate]
      ensures d.target.NoTarget? ==> table.runsOn == old(table.runsOn) && moved == old(moved)
                                     && table.dataOfPMs[..] == old(table.dataOfPMs[..])
    {
      Snapshot();
      d := Reorganize();
    }

    /** A message of a task process. */
    method SendTask(sender: nat, receiver: nat, ok: bool, elapsed: real)
      requires Valid() && sender < table.vms && receiver < table.vms && elapsed >= 0.0
      modifies this`window, board.rate, board.latency
      ensures Valid() && window == Sending(old(window), sender, receiver, ok, elapsed)
      ensures ok ==> old(board.Abs()).SetTo(board.n, sender, receiver,
                                            Record(old(board.Abs()).At(board.n, sender, receiver), elapsed), board.Abs())
      ensures !ok ==> board.Abs() == old(board.Abs())
    {
      ghost var t := board.Abs();
      board.RecordSend(sender, receiver, ok, elapsed);
      SendingAccounted(t, board.n, window, board.Abs(), sender, receiver, ok, elapsed);
      window := Sending(window, sender, receiver, ok, elapsed);
    }

    /** A whole run, messages and periods in any order: the partition and all other invariants are kept, there is at most one
        move per period, and the moves so far stay on record, no two in a row of the same VM. Every raw cell accounts for exactly
        the successful messages of its pair since the last period. */
    method Run(happenings: seq<Happening>)
      requires Valid() && forall i :: 0 <= i < |happenings| ==> happenings[i].Possible(table.vms)
      modifies this, h, nextH, table`runsOn, table.dataOfPMs, board.rate, board.latency, smooth.rate, smooth.latency
      ensures Valid() && old(moved) <= moved && window == OpenWindow(old(window), happenings)
      ensures migrateCounter - old(migrateCounter) <= Periods(happenings)
    {
      assert happenings[..0] == [];
      for i := 0 to |happenings|
        invariant Valid() && old(moved) <= moved && window == OpenWindow(old(window), happenings[..i])
        invariant migrateCounter - old(migrateCounter) <= Periods(happenings[..i])
      {
        assert happenings[..i + 1][..i] == happenings[..i];
        match happenings[i]
        case PeriodEnds =>
          var _ := Period();
        case Sent(sender, receiver, ok, elapsed) =>
          SendTask(sender, receiver, ok, elapsed);
      }
      assert happenings[..|happenings|] == happenings;
    }
  }

  datatype Happening = PeriodEnds | Sent(sender: nat, receiver: nat, ok: bool, elapsed: real) {
    predicate Possible(vms: nat) {
      Sent? ==> sender < vms && receiver < vms && elapsed >= 0.0
    }
  }

  /** The messages since the last period, after `w`. */
  function OpenWindow(w: Window, happenings: seq<Happening>): Window {
    if happenings == [] then w
    else
      var n := |happenings| - 1;
      match happenings[n]
      case PeriodEnds => map[]
      case Sent(sender, receiver, ok, elapsed) => Sending(OpenWindow(w, happenings[..n]), sender, receiver, ok, elapsed)
  }

  function Periods(happenings: seq<Happening>): nat {
    if happenings == [] then 0
    else
      var n := |happenings| - 1;
      Periods(happenings[..n]) + if happenings[n].PeriodEnds? then 1 else 0
  }
}
