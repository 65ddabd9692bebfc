/** The work loop of a task process (simgrid/organizer/hpvc.c:190-230): what it does in each of its iterations, when it ends, and
    which mailbox it ends at. */
module WorkLoop {
  import opened Arithmetic
  import opened Smoothing

  datatype Action = Compute | Send(target: nat)

  function GetNextTargetMailBox(mailBoxID: nat, processSequenceNumber: nat, vms: nat): (r: nat)
    requires vms > 0
    ensures r < vms
  {
    (mailBoxID + processSequenceNumber) % vms
  }

  /** ITERATION_PER_PROCESS, COMP_TASK_SIZE and COMM_TASK_SIZE; the process's number and first target; the number of VMs. */
  datatype Params = Params(steps: nat, comp: nat, comm: nat, number: nat, first: nat, vms: nat) {
    predicate Valid() {
      first < vms
    }

    /** The sizes add up to the number of steps; otherwise the loop never ends: see TerminatesIff. */
    predicate Suffices() {
      comp + comm >= steps
    }

    /** The steps the loop ever does; if the sizes do not suffice it then goes round without doing anything. */
    function Doable(): nat {
      if Suffices() then steps else comp + comm
    }

    /** Computations and messages alternate for this many rounds. */
    function Rounds(): nat {
      if comp < comm then comp else comm
    }
  }

  /** The target after `k` rehashes. */
  function Hop(w: Params, k: nat): (r: nat)
    requires w.Valid()
    ensures r < w.vms
  {
    if k == 0 then w.first else GetNextTargetMailBox(Hop(w, k - 1), w.number * (w.comp + 2 * (k - 1)), w.vms)
  }

  /** Rehashes before step `i`: one on every second message, once the paired phase is over. */
  function Hops(w: Params, i: nat): nat {
    if w.comp > w.comm || i <= 2 * w.comp then 0 else (i - 2 * w.comp + 1) / 2
  }

  /** The closed form: what step `i` does. */
  function ActionAt(w: Params, i: nat): (a: Action)
    requires w.Valid()
    ensures a.Send? ==> a.target < w.vms
  {
    if i < 2 * w.Rounds() then if i % 2 == 0 then Compute else Send(w.first)
    else if w.comp > w.comm then Compute
    else Send(Hop(w, Hops(w, i + 1)))
  }

  /** How many of the first `i` steps are computations. */
  function Computations(w: Params, i: nat): nat {
    if i <= 2 * w.Rounds() then (i + 1) / 2
    else if w.comp > w.comm then i - w.comm
    else w.comp
  }

  /** What `k` rehashes add to the first target, in closed form. */
  function Shift(w: Params, k: nat): nat {
    w.number * (k * w.comp + k * (k - 1))
  }

  lemma ShiftStep(w: Params, k: nat)
    ensures Shift(w, k + 1) == Shift(w, k) + w.number * (w.comp + 2 * k)
  {
    var a, b := k * w.comp + k * (k - 1), w.comp + 2 * k;
    assert (k + 1) * w.comp + (k + 1) * k == a + b;
    Distribute(w.number, a, b);
  }

  lemma Distribute(x: int, a: int, b: int)
    ensures x * (a + b) == x * a + x * b
  {
  }

  lemma Rehash(sum: nat, number: nat, vms: nat)
    requires vms > 0
    ensures GetNextTargetMailBox(sum % vms, number, vms) == (sum + number) % vms
  {
    AddMod(sum, number, vms);
  }

  lemma {:induction false} HopIsShift(w: Params, k: nat)
    requires w.Valid()
    ensures Hop(w, k) == (w.first + Shift(w, k)) % w.vms
  {
    if k == 0 {
      assert Shift(w, 0) == 0;
      Small(w.first, w.vms);
    } else {
      HopIsShift(w, k - 1);
      ShiftStep(w, k - 1);
      Rehash(w.first + Shift(w, k - 1), w.number * (w.comp + 2 * (k - 1)), w.vms);
    }
  }

  /** The target a process has before step `i`. */
  function TargetAt(w: Params, i: nat): nat
    requires w.Valid()
  {
    Hop(w, Hops(w, i))
  }

  /** The log of the first steps follows the closed form. */
  ghost predicate Follows(w: Params, log: seq<Action>)
    requires w.Valid()
  {
    forall i :: 0 <= i < |log| ==> log[i] == ActionAt(w, i)
  }

  /** How far the loop has come: how many steps are done and of which kind, and the target. */
  ghost predicate Progress(w: Params, p: nat, n: nat, target: nat, log: seq<Action>)
    requires w.Valid()
  {
    && |log| == p + n <= w.steps && Follows(w, log)
    && p == Computations(w, p + n) && target == TargetAt(w, p + n)
  }

  /** In the paired phase the loop is at an even step at its head and at an odd one half way. */
  ghost predicate Paired(w: Params, i: nat, parity: nat) {
    i < w.steps && i < 2 * w.Rounds() ==> i % 2 == parity
  }

  lemma ComputeStep(w: Params, p: nat, n: nat, target: nat, log: seq<Action>)
    requires w.Valid() && Progress(w, p, n, target, log) && Paired(w, p + n, 0) && p < w.comp && p + n < w.steps
    ensures Progress(w, p + 1, n, target, log + [Compute]) && Paired(w, p + n + 1, 1)
  {
  }

  /** On odd steps the target stays, on even ones it is rehashed with the number of messages sent so far. */
  function NextTarget(w: Params, i: nat, n: nat, target: nat): nat
    requires w.Valid()
  {
    if i % 2 == 0 then GetNextTargetMailBox(target, w.number * n, w.vms) else target
  }

  lemma SendsToNextTarget(w: Params, p: nat, n: nat, target: nat)
    requires w.Valid() && target == TargetAt(w, p + n) && n < w.comm
    requires if p + n < 2 * w.Rounds() then (p + n) % 2 == 1 else p == w.comp <= n
    ensures NextTarget(w, p + n, n, target) == TargetAt(w, p + n + 1)
    ensures ActionAt(w, p + n) == Send(NextTarget(w, p + n, n, target))
  {
    var i := p + n;
    if i < 2 * w.Rounds() {
      assert Hops(w, i) == Hops(w, i + 1) == 0;
    } else if i % 2 == 0 {
      NextIsHop(w, p, n, target);
    } else {
      assert Hops(w, i) == Hops(w, i + 1);
    }
  }

  lemma SendCounts(w: Params, p: nat, n: nat)
    requires p == Computations(w, p + n) && n < w.comm
    requires if p + n < 2 * w.Rounds() then (p + n) % 2 == 1 else p == w.comp
    ensures p == Computations(w, p + n + 1) && (p + n >= 2 * w.Rounds() ==> w.comp <= n)
  {
  }

  lemma SendStep(w: Params, p: nat, n: nat, target: nat, log: seq<Action>)
    requires w.Valid() && Progress(w, p, n, target, log) && Paired(w, p + n, 1) && n < w.comm && p + n < w.steps
    requires p == w.comp || p + n < 2 * w.Rounds()
    ensures Progress(w, p, n + 1, NextTarget(w, p + n, n, target), log + [Send(NextTarget(w, p + n, n, target))])
    ensures Paired(w, p + n + 1, 0)
  {
    SendCounts(w, p, n);
    SendsToNextTarget(w, p, n, target);
  }

  /** The work loop. The sizes must add up to the number of steps, or it never ends: see TerminatesIff. */
  method Work(w: Params) returns (p: nat, n: nat, target: nat, log: seq<Action>)
    requires w.Valid() && w.Suffices()
    ensures |log| == w.steps == p + n && Follows(w, log)
    ensures p == Computations(w, w.steps) && target == TargetAt(w, w.steps) < w.vms
  {
    var i := 0;
    p, n, target, log := 0, 0, w.first, [];
    while i < w.steps
      invariant i == p + n && Progress(w, p, n, target, log) && Paired(w, i, 0)
      decreases w.steps - i
    {
      if p < w.comp {
        ComputeStep(w, p, n, target, log);
        log := log + [Compute];
        p := p + 1;
        i := i + 1;
      }
      if n < w.comm && i < w.steps {
        SendStep(w, p, n, target, log);
        target := NextTarget(w, i, n, target);
        log := log + [Send(target)];
        n := n + 1;
        i := i + 1;
      }
    }
  }

  lemma NextIsHop(w: Params, p: nat, n: nat, target: nat)
    requires w.Valid() && p == w.comp && n >= p && (p + n) % 2 == 0 && w.comp <= w.comm && target == TargetAt(w, p + n)
    ensures GetNextTargetMailBox(target, w.number * n, w.vms) == TargetAt(w, p + n + 1)
  {
    assert Hops(w, p + n + 1) == Hops(w, p + n) + 1;
    assert n == w.comp + 2 * Hops(w, p + n);
  }

  /** K = max(0, ceil((steps - 2 * comp) / 2)). */
  function FinalHops(w: Params): nat {
    if w.steps > 2 * w.comp then (w.steps - 2 * w.comp + 1) / 2 else 0
  }

  /** The final target in closed form: first + number * (K * comp + K * (K - 1)), modulo the number of VMs. */
  lemma FinalTarget(w: Params)
    requires w.Valid() && w.Suffices()
    ensures TargetAt(w, w.steps) == (w.first + Shift(w, FinalHops(w))) % w.vms
    ensures var k := if w.steps > 2 * w.comp then (w.steps - 2 * w.comp + 1) / 2 else 0;
      TargetAt(w, w.steps) == (w.first + w.number * (k * w.comp + k * (k - 1))) % w.vms
  {
    assert Hops(w, w.steps) == FinalHops(w);
    HopIsShift(w, FinalHops(w));
  }

  /** One iteration of the loop body, when it cannot be told in advance that the loop ends. */
  datatype LoopState = LoopState(p: nat, n: nat)

  function Body(w: Params, s: LoopState): LoopState
    requires s.p + s.n < w.steps
  {
    var s1 := if s.p < w.comp then LoopState(s.p + 1, s.n) else s;
    if s1.n < w.comm && s1.p + s1.n < w.steps then LoopState(s1.p, s1.n + 1) else s1
  }

  function Iterate(w: Params, s: LoopState, k: nat): LoopState
    decreases k
  {
    if k == 0 || s.p + s.n >= w.steps then s else Iterate(w, Body(w, s), k - 1)
  }

  predicate Ended(w: Params, s: LoopState) { s.p + s.n >= w.steps }

  predicate EndsWithin(w: Params, k: nat) { Ended(w, Iterate(w, LoopState(0, 0), k)) }

  lemma {:induction false} NeverEnds(w: Params, s: LoopState, k: nat)
    requires s.p <= w.comp && s.n <= w.comm && !w.Suffices()
    ensures !Ended(w, Iterate(w, s, k))
    decreases k
  {
    if k > 0 { NeverEnds(w, Body(w, s), k - 1); }
  }

  lemma {:induction false} EndsIn(w: Params, s: LoopState, k: nat)
    requires s.p <= w.comp && s.n <= w.comm && w.Suffices() && s.p + s.n + k >= w.steps
    ensures Ended(w, Iterate(w, s, k))
    decreases k
  {
    if k > 0 && s.p + s.n < w.steps { EndsIn(w, Body(w, s), k - 1); }
  }

  /** The loop ends if and only if the two sizes add up to at least the number of steps. */
  lemma TerminatesIff(w: Params)
    ensures (exists k: nat :: EndsWithin(w, k)) <==> w.Suffices()
  {
    if w.Suffices() {
      var k := w.steps;
      EndsIn(w, LoopState(0, 0), k);
      assert EndsWithin(w, k);
    } else {
      forall k: nat ensures !EndsWithin(w, k) {
        NeverEnds(w, LoopState(0, 0), k);
      }
    }
  }

  lemma {:induction false} IteratesAlike(w: Params, w': Params, s: LoopState, k: nat)
    requires !w.Suffices() && w' == w.(steps := w.comp + w.comm) && s.p <= w.comp && s.n <= w.comm
    ensures Iterate(w, s, k) == Iterate(w', s, k)
    decreases k
  {
    if k > 0 {
      if s.p + s.n < w'.steps {
        IteratesAlike(w, w', Body(w, s), k - 1);
      } else {
        GoesRound(w, s, k);
      }
    }
  }

  lemma {:induction false} GoesRound(w: Params, s: LoopState, k: nat)
    requires !w.Suffices() && s == LoopState(w.comp, w.comm)
    ensures Iterate(w, s, k) == s
    decreases k
  {
    if k > 0 { GoesRound(w, s, k - 1); }
  }

  /** A loop whose sizes do not suffice does, iteration by iteration, what it would do with as many steps as the sizes add up to, and
      stays where that one ends. */
  lemma StuckLoop(w: Params, k: nat)
    requires !w.Suffices() && k >= w.comp + w.comm
    ensures forall j: nat :: Iterate(w, LoopState(0, 0), j) == Iterate(w.(steps := w.Doable()), LoopState(0, 0), j)
    ensures Iterate(w, LoopState(0, 0), k) == LoopState(w.comp, w.comm)
  {
    var w' := w.(steps := w.Doable());
    forall j: nat ensures Iterate(w, LoopState(0, 0), j) == Iterate(w', LoopState(0, 0), j) {
      IteratesAlike(w, w', LoopState(0, 0), j);
    }
    EndsIn(w', LoopState(0, 0), k);
    StaysWithin(w', LoopState(0, 0), k);
  }

  lemma {:induction false} StaysWithin(w: Params, s: LoopState, k: nat)
    requires s.p <= w.comp && s.n <= w.comm
    ensures Iterate(w, s, k).p <= w.comp && Iterate(w, s, k).n <= w.comm
    decreases k
  {
    if k > 0 && s.p + s.n < w.steps { StaysWithin(w, Body(w, s), k - 1); }
  }

  /** The sizes `main` computes (simgrid/organizer/hpvc.c:1361-1363) from the steps and the ratio COMP_PER_COMM. */
  function CompSize(ratio: real, steps: nat): int { Truncate(ratio * steps as real) }

  /** ITERATION_PER_PROCESS. */
  function StepsOf(vms: nat): (r: nat)
    ensures r as real <= 0.6 * vms as real < r as real + 1.0
  { 
    (vms as real * 0.6).Floor
  }

  function CommSize(ratio: real, steps: nat): int { Truncate(steps as real - ratio) }

  lemma MainSizes(ratio: real, steps: nat)
    requires 0.0 <= ratio < 1.0
    ensures 0 <= CompSize(ratio, steps) <= steps && 0 <= CommSize(ratio, steps)
    ensures CommSize(ratio, steps) == if ratio == 0.0 || steps == 0 then steps else steps - 1
    ensures CompSize(ratio, steps) as real <= ratio * steps as real < CompSize(ratio, steps) as real + 1.0
    ensures CompSize(ratio, steps) >= 1 <==> ratio * steps as real >= 1.0
  {
    Scaled(1.0 - ratio, steps as real);
    assert (1.0 - ratio) * steps as real == steps as real - ratio * steps as real;
    if ratio > 0.0 { Scaled(ratio, steps as real); }
  }

  /** With the sizes from `main` the loop ends except for a ratio that is positive but too small to give one computation. The
      comment beside them ("to avoid infinite loop") does not cover that case. */
  lemma MainTerminatesIff(ratio: real, steps: nat)
    requires 0.0 <= ratio < 1.0
    ensures CompSize(ratio, steps) + CommSize(ratio, steps) >= steps <==> steps == 0 || ratio == 0.0 || ratio * steps as real >= 1.0
  {
    MainSizes(ratio, steps);
  }

  /** The parameters of a process have the sizes from `main`. */
  ghost predicate FromMain(w: Params, ratio: real) {
    0.0 <= ratio < 1.0 && w.comp == CompSize(ratio, w.steps) && w.comm == CommSize(ratio, w.steps)
  }

  /** So the work loop of a simulation ends if and only if there is nothing to do, or the ratio is 0, or it gives at least one
      computation. */
  lemma WorkEndsIff(w: Params, ratio: real)
    requires FromMain(w, ratio)
    ensures (exists k: nat :: EndsWithin(w, k)) <==> w.steps == 0 || ratio == 0.0 || ratio * w.steps as real >= 1.0
  {
    TerminatesIff(w);
    MainTerminatesIff(ratio, w.steps);
  }

  /** For example 36 steps (60 VMs) and a ratio of 0.02: no number of iterations ends the loop. */
  lemma MainNeverEnds(w: Params, k: nat)
    requires FromMain(w, 0.02) && w.steps == 36
    ensures w.comp == 0 && w.comm == 35 && !EndsWithin(w, k)
  {
    NeverEnds(w, LoopState(0, 0), k);
  }

  /** With the sizes from `main` there are min(comp, ceil(steps / 2)) computations. */
  lemma MainComputations(w: Params)
    requires w.comm >= w.steps - 1 && w.Suffices()
    ensures Computations(w, w.steps) == if w.comp <= (w.steps + 1) / 2 then w.comp else (w.steps + 1) / 2
  {
  }

  /** All ratios that allow half of the steps to be computations lead to the same work, step by step. */
  lemma SameWork(w: Params, w': Params, log: seq<Action>, log': seq<Action>)
    requires w.Valid() && w'.Valid() && w'.steps == w.steps && w'.first == w.first
    requires w.comm >= w.steps - 1 && w'.comm >= w.steps - 1 && w.comp >= (w.steps + 1) / 2 && w'.comp >= (w.steps + 1) / 2
    requires |log| == |log'| == w.steps && Follows(w, log) && Follows(w', log')
    ensures log == log'
  {
    forall i | 0 <= i < w.steps ensures ActionAt(w, i) == ActionAt(w', i) {
      assert w.steps >= 2 ==> i < 2 * w.Rounds() && i < 2 * w'.Rounds();
    }
  }

  /** In terms of the ratios, as 0.5 and 0.9 for the 36 steps of 60 VMs: when both give at least half of the steps as computations,
      every process does the same in both simulations, step by step. */
  lemma SameWorkForRatios(w: Params, ratio: real, w': Params, ratio': real, log: seq<Action>, log': seq<Action>)
    requires FromMain(w, ratio) && FromMain(w', ratio') && w.Valid() && w'.Valid() && w'.steps == w.steps && w'.first == w.first
    requires ratio * w.steps as real >= ((w.steps + 1) / 2) as real && ratio' * w.steps as real >= ((w.steps + 1) / 2) as real
    requires |log| == |log'| == w.steps && Follows(w, log) && Follows(w', log')
    ensures log == log'
  {
    HalfComputes(ratio, w.steps);
    HalfComputes(ratio', w.steps);
    SameWork(w, w', log, log');
  }

  lemma HalfComputes(ratio: real, steps: nat)
    requires 0.0 <= ratio < 1.0 && ratio * steps as real >= ((steps + 1) / 2) as real
    ensures CompSize(ratio, steps) >= (steps + 1) / 2 && CommSize(ratio, steps) >= steps - 1
  {
    MainSizes(ratio, steps);
  }
}
