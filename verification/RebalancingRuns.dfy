/** Why the rebalancer comes to rest: with loads frozen, every migration lowers a natural-number measure. */
module RebalancingRuns {
  import opened Arithmetic
  import opened Rebalancing
  import opened VmRecords

  /** Where each VM runs, and the load scale `max_pm_vm`. */
  datatype Placement = Placement(loc: seq<nat>, scale: nat) {
    ghost predicate Valid(cl: Cluster) {
      scale >= 1 && |cl.cores| >= 1 && cl.Valid(|loc|) && cl.Monotone() && ValidLocation(loc, |cl.cores|)
    }
  }

  /** One migration: accepted by the cost test, to a PM with room; the scale doubles when the target reaches it. */
  ghost predicate Migrates(cl: Cluster, p: Placement, p': Placement, v: nat, to: nat)
    requires p.Valid(cl)
  {
    && v < |p.loc| && to < |cl.cores|
    && Accepted(cl, p.loc, p.scale, v, to)
    && CountOn(p.loc, to, |p.loc|) < MAX_VM_TO_PM
    && p'.loc == p.loc[v := to]
    && p'.scale == if CountOn(p'.loc, to, |p'.loc|) >= p.scale then 2 * p.scale else p.scale
  }

  ghost predicate Step(cl: Cluster, p: Placement, p': Placement)
    requires p.Valid(cl)
  {
    exists v, to :: Migrates(cl, p, p', v, to)
  }

  /** How often the scale can still double: a PM never holds more than MAX_VM_TO_PM VMs. */
  function DoublingsLeft(scale: nat): (r: nat)
    requires scale >= 1
    ensures r <= 3 && (scale >= 2 ==> r <= 2) && (scale >= 3 ==> r <= 1) && (scale > MAX_VM_TO_PM <==> r == 0)
    decreases MAX_VM_TO_PM + 1 - scale
  {
    if scale > MAX_VM_TO_PM then 0 else 1 + DoublingsLeft(2 * scale)
  }

  /** Placements as numbers in base `n`: every placement of k VMs on n PMs has its own number below n^k. */
  function Encode(loc: seq<nat>, n: nat): nat {
    if loc == [] then 0 else Encode(loc[..|loc| - 1], n) * n + loc[|loc| - 1]
  }

  lemma {:induction false} EncodeBound(loc: seq<nat>, n: nat)
    requires ValidLocation(loc, n)
    ensures Encode(loc, n) < Power(n, |loc|)
  {
    if loc != [] {
      EncodeBound(loc[..|loc| - 1], n);
      DigitBound(Encode(loc[..|loc| - 1], n), loc[|loc| - 1], n, Power(n, |loc| - 1));
    }
  }

  lemma {:induction false} EncodeInjective(loc: seq<nat>, loc': seq<nat>, n: nat)
    requires ValidLocation(loc, n) && ValidLocation(loc', n) && |loc| == |loc'| && Encode(loc, n) == Encode(loc', n)
    ensures loc == loc'
  {
    if loc != [] {
      var init, init' := loc[..|loc| - 1], loc'[..|loc| - 1];
      DigitsUnique(Encode(init, n), loc[|loc| - 1], Encode(init', n), loc'[|loc| - 1], n);
      EncodeInjective(init, init', n);
      assert loc == init + [loc[|loc| - 1]] && loc' == init' + [loc'[|loc| - 1]];
    }
  }

  ghost function Below(n: nat): (r: set<nat>)
    ensures |r| == n
    ensures forall c: nat :: c in r <==> c < n
  {
    if n == 0 then {} else Below(n - 1) + {n - 1}
  }

  ghost predicate NumbersLower(cl: Cluster, p: Placement, c: nat)
    requires p.Valid(cl)
  {
    exists loc :: Encode(loc, |cl.cores|) == c && |loc| == |p.loc| && ValidLocation(loc, |cl.cores|)
               && Potential(cl, loc, p.scale) < Potential(cl, p.loc, p.scale)
  }

  /** The numbers of the placements of lower potential. */
  ghost function Lower(cl: Cluster, p: Placement): set<nat>
    requires p.Valid(cl)
  {
    set c | c in Below(Power(|cl.cores|, |p.loc|)) && NumbersLower(cl, p, c)
  }

  function Weight(doublings: nat, placements: nat, lower: nat): nat {
    if doublings == 0 then lower else placements + Weight(doublings - 1, placements, lower)
  }

  /** The measure: doublings left first, then how many placements of lower potential there are under this scale. */
  ghost function Measure(cl: Cluster, p: Placement): nat
    requires p.Valid(cl)
  {
    Weight(DoublingsLeft(p.scale), Power(|cl.cores|, |p.loc|), |Lower(cl, p)|)
  }

  lemma SubsetSize(a: set<nat>, b: set<nat>)
    requires a <= b
    ensures |a| <= |b|
    ensures a != b ==> |a| < |b|
  {
    assert b == a + (b - a);
  }

  lemma NumberOfHigher(cl: Cluster, p: Placement, loc: seq<nat>)
    requires p.Valid(cl) && |loc| == |p.loc| && ValidLocation(loc, |cl.cores|)
    requires Potential(cl, loc, p.scale) >= Potential(cl, p.loc, p.scale)
    ensures Encode(loc, |cl.cores|) !in Lower(cl, p)
  {
    var n := |cl.cores|;
    if NumbersLower(cl, p, Encode(loc, n)) {
      var other :| Encode(other, n) == Encode(loc, n) && |other| == |p.loc| && ValidLocation(other, n)
                && Potential(cl, other, p.scale) < Potential(cl, p.loc, p.scale);
      EncodeInjective(other, loc, n);
    }
  }

  lemma LowerBound(cl: Cluster, p: Placement)
    requires p.Valid(cl)
    ensures |Lower(cl, p)| < Power(|cl.cores|, |p.loc|)
  {
    var c, all := Encode(p.loc, |cl.cores|), Below(Power(|cl.cores|, |p.loc|));
    EncodeBound(p.loc, |cl.cores|);
    NumberOfHigher(cl, p, p.loc);
    assert c in all;
    SubsetSize(Lower(cl, p), all);
  }

  lemma LowerShrinks(cl: Cluster, p: Placement, p': Placement)
    requires p.Valid(cl) && p'.Valid(cl) && |p.loc| == |p'.loc| && p.scale == p'.scale
    requires Potential(cl, p'.loc, p'.scale) < Potential(cl, p.loc, p.scale)
    ensures |Lower(cl, p')| < |Lower(cl, p)|
  {
    var c := Encode(p'.loc, |cl.cores|);
    EncodeBound(p'.loc, |cl.cores|);
    assert NumbersLower(cl, p, c);
    NumberOfHigher(cl, p', p'.loc);
    SubsetSize(Lower(cl, p'), Lower(cl, p));
  }

  lemma {:induction false} WeightGrows(d: nat, b: nat, low: nat, low': nat)
    ensures low < low' ==> Weight(d, b, low) < Weight(d, b, low')
    ensures low < b && d <= 3 ==>
              Weight(d, b, low) < if d == 0 then b else if d == 1 then 2 * b else if d == 2 then 3 * b else 4 * b
    ensures low' < b ==> Weight(d, b, low') < b + Weight(d, b, low)
  {
    if d > 0 { WeightGrows(d - 1, b, low, low'); }
  }

  lemma WeightDrops(scale: nat, b: nat, low: nat, low': nat)
    requires 1 <= scale <= MAX_VM_TO_PM && low' < b
    ensures Weight(DoublingsLeft(2 * scale), b, low') < Weight(DoublingsLeft(scale), b, low)
  {
    WeightGrows(DoublingsLeft(2 * scale), b, low, low');
  }

  lemma MeasureBound(cl: Cluster, p: Placement)
    requires p.Valid(cl)
    ensures Measure(cl, p) < 4 * Power(|cl.cores|, |p.loc|)
  {
    LowerBound(cl, p);
    WeightGrows(DoublingsLeft(p.scale), Power(|cl.cores|, |p.loc|), |Lower(cl, p)|, 0);
  }

  /** The scale doubles only when the target, with one VM more, reaches it. */
  lemma MovedScale(loc: seq<nat>, scale: nat, v: nat, to: nat)
    requires v < |loc| && to != loc[v] && CountOn(loc, to, |loc|) < MAX_VM_TO_PM
    ensures CountOn(loc[v := to], to, |loc|) >= scale ==> scale <= MAX_VM_TO_PM
  {
    MoveChangesCount(loc, v, to, to, |loc|);
  }

  lemma MigratesKeeps(cl: Cluster, p: Placement, p': Placement, v: nat, to: nat)
    requires p.Valid(cl) && Migrates(cl, p, p', v, to)
    ensures p'.Valid(cl) && |p'.loc| == |p.loc|
    ensures p'.scale == p.scale || (p'.scale == 2 * p.scale && p.scale <= MAX_VM_TO_PM)
  {
    MovedScale(p.loc, p.scale, v, to);
  }

  lemma MigrationKeeps(cl: Cluster, p: Placement, p': Placement)
    requires p.Valid(cl) && Step(cl, p, p')
    ensures p'.Valid(cl) && |p'.loc| == |p.loc|
    ensures p'.scale == p.scale || (p'.scale == 2 * p.scale && p.scale <= MAX_VM_TO_PM)
  {
    var v, to :| Migrates(cl, p, p', v, to);
    MigratesKeeps(cl, p, p', v, to);
  }

  lemma MigrationLowersPotential(cl: Cluster, p: Placement, p': Placement)
    requires p.Valid(cl) && Step(cl, p, p') && |p'.loc| == |p.loc|
    ensures Potential(cl, p'.loc, p.scale) < Potential(cl, p.loc, p.scale)
  {
    var v, to :| Migrates(cl, p, p', v, to);
    AcceptedMoveLowersPotential(cl, p.loc, p.scale, v, to);
  }

  lemma SameScaleLowersMeasure(cl: Cluster, p: Placement, p': Placement)
    requires p.Valid(cl) && p'.Valid(cl) && |p'.loc| == |p.loc| && p'.scale == p.scale
    requires Potential(cl, p'.loc, p'.scale) < Potential(cl, p.loc, p.scale)
    ensures Measure(cl, p') < Measure(cl, p)
  {
    LowerShrinks(cl, p, p');
    WeightGrows(DoublingsLeft(p.scale), Power(|cl.cores|, |p.loc|), |Lower(cl, p')|, |Lower(cl, p)|);
  }

  lemma DoublingLowersMeasure(cl: Cluster, p: Placement, p': Placement)
    requires p.Valid(cl) && p'.Valid(cl) && |p'.loc| == |p.loc| && p'.scale == 2 * p.scale && p.scale <= MAX_VM_TO_PM
    ensures Measure(cl, p') < Measure(cl, p)
  {
    LowerBound(cl, p');
    WeightDrops(p.scale, Power(|cl.cores|, |p.loc|), |Lower(cl, p)|, |Lower(cl, p')|);
  }

  /** Every migration lowers the measure, whether or not it doubles the scale. */
  lemma MigrationLowersMeasure(cl: Cluster, p: Placement, p': Placement)
    requires p.Valid(cl) && Step(cl, p, p')
    ensures p'.Valid(cl) && |p'.loc| == |p.loc|
    ensures Measure(cl, p') < Measure(cl, p)
  {
    MigrationKeeps(cl, p, p');
    if p'.scale == p.scale {
      MigrationLowersPotential(cl, p, p');
      SameScaleLowersMeasure(cl, p, p');
    } else {
      DoublingLowersMeasure(cl, p, p');
    }
  }

  /** A run: every two neighbours are related by one migration. */
  ghost predicate Run(cl: Cluster, run: seq<Placement>) {
    && |run| >= 1
    && (forall i :: 0 <= i < |run| ==> run[i].Valid(cl) && |run[i].loc| == |run[0].loc|)
    && (forall i, j :: 0 <= i < j < |run| && j == i + 1 ==> Step(cl, run[i], run[j]))
  }

  ghost function Measures(cl: Cluster, run: seq<Placement>): (r: seq<nat>)
    requires forall i :: 0 <= i < |run| ==> run[i].Valid(cl)
    ensures |r| == |run|
  {
    seq(|run|, i requires 0 <= i < |run| => Measure(cl, run[i]))
  }

  lemma {:induction false} DecreasingBy(s: seq<nat>, i: nat, j: nat)
    requires i <= j < |s|
    requires forall k :: 0 < k < |s| ==> s[k] < s[k - 1]
    ensures s[j] + (j - i) <= s[i]
    decreases j
  {
    if i < j { DecreasingBy(s, i, j - 1); }
  }

  lemma RunLowersMeasure(cl: Cluster, run: seq<Placement>, i: nat, j: nat)
    requires Run(cl, run) && i <= j < |run|
    ensures Measure(cl, run[j]) + (j - i) <= Measure(cl, run[i])
  {
    var s := Measures(cl, run);
    forall k | 0 < k < |run| ensures s[k] < s[k - 1] {
      MigrationLowersMeasure(cl, run[k - 1], run[k]);
    }
    DecreasingBy(s, i, j);
  }

  lemma RunEndsLower(cl: Cluster, run: seq<Placement>, p: Placement, p': Placement)
    requires Run(cl, run) && run[0] == p && run[|run| - 1] == p'
    ensures p.Valid(cl) && p'.Valid(cl)
    ensures Measure(cl, p') + (|run| - 1) <= Measure(cl, p)
  {
    RunLowersMeasure(cl, run, 0, |run| - 1);
  }

  /** Only finitely many migrations happen: with n PMs and k VMs a run has fewer than 4 * n^k of them, whatever the loads,
      the power function and the order of the scans. */
  lemma MigrationsBounded(cl: Cluster, run: seq<Placement>)
    requires Run(cl, run)
    ensures |run| - 1 <= Measure(cl, run[0]) < 4 * Power(|cl.cores|, |run[0].loc|)
  {
    RunLowersMeasure(cl, run, 0, |run| - 1);
    MeasureBound(cl, run[0]);
  }

  /** Between two doublings no placement recurs. */
  lemma NoPlacementRecurs(cl: Cluster, run: seq<Placement>, i: nat, j: nat)
    requires Run(cl, run) && i < j < |run| && run[i].scale == run[j].scale
    ensures run[i].loc != run[j].loc
  {
    RunLowersMeasure(cl, run, i, j);
  }
}
