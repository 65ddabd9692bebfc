/** The cost model of the opportunity-cost rebalancer (simgrid/simgrid-project/hpvc.c): what a VM costs where it is,
    what it would cost elsewhere, and the cluster potential of which these two costs are differences. */
module Rebalancing {
  import opened RealSums
  import opened VmRecords

  const MAX_VM_TO_PM: nat := 5
  const MAX_PM_NET: real := 125000000.0

  /** What a scan reads: `pow(number_of_involved_host, .)`, the cores of each PM, and for every VM its process count times
      its cores and its reserved net usage. */
  datatype Cluster = Cluster(pow: real -> real, cores: seq<nat>, load: seq<nat>, net: seq<real>) {

    ghost predicate Valid(vms: nat) {
      && |load| == |net| == vms
      && forall m :: 0 <= m < |cores| ==> cores[m] >= 1
    }

    /** All that is used of the power function is that it does not decrease, and of the usages that none is negative. */
    ghost predicate Monotone() {
      && (forall x, y :: x <= y ==> pow(x) <= pow(y))
      && (forall v :: 0 <= v < |net| ==> net[v] >= 0.0)
    }

    function HostCost(hostLoad: int, hostNet: real, scale: nat, m: nat): real
      requires scale >= 1 && m < |cores| && cores[m] >= 1
    {
      pow(hostLoad as real / (scale * cores[m]) as real) + pow(hostNet / MAX_PM_NET)
    }

    /** What taking a VM away from PM `m` would save. */
    function Inhabitancy(hostLoad: int, hostNet: real, vmLoad: int, vmNet: real, scale: nat, m: nat): real
      requires scale >= 1 && m < |cores| && cores[m] >= 1
    {
      HostCost(hostLoad, hostNet, scale, m) - HostCost(hostLoad - vmLoad, hostNet - vmNet, scale, m)
    }

    /** What adding a VM to PM `m` would cost. */
    function Migration(hostLoad: int, hostNet: real, vmLoad: int, vmNet: real, scale: nat, m: nat): real
      requires scale >= 1 && m < |cores| && cores[m] >= 1
    {
      HostCost(hostLoad + vmLoad, hostNet + vmNet, scale, m) - HostCost(hostLoad, hostNet, scale, m)
    }
  }

  /** Load and net usage of PM `m` over the first `k` VMs, by the PM each VM runs on. */
  function LoadOn(cl: Cluster, loc: seq<nat>, m: nat, k: nat): int
    requires k <= |loc| == |cl.load|
  {
    if k == 0 then 0 else LoadOn(cl, loc, m, k - 1) + if loc[k - 1] == m then cl.load[k - 1] else 0
  }

  function NetOn(cl: Cluster, loc: seq<nat>, m: nat, k: nat): real
    requires k <= |loc| == |cl.net|
  {
    if k == 0 then 0.0 else NetOn(cl, loc, m, k - 1) + if loc[k - 1] == m then cl.net[k - 1] else 0.0
  }

  function CostAt(cl: Cluster, loc: seq<nat>, scale: nat, m: nat): real
    requires scale >= 1 && cl.Valid(|loc|) && m < |cl.cores|
  {
    cl.HostCost(LoadOn(cl, loc, m, |loc|), NetOn(cl, loc, m, |loc|), scale, m)
  }

  function Costs(cl: Cluster, loc: seq<nat>, scale: nat): seq<real>
    requires scale >= 1 && cl.Valid(|loc|)
  {
    seq(|cl.cores|, m requires 0 <= m < |cl.cores| => CostAt(cl, loc, scale, m))
  }

  /** The cluster potential: over all PMs, N^(load / (scale * cores)) + N^(net / MAX_PM_NET). */
  function Potential(cl: Cluster, loc: seq<nat>, scale: nat): real
    requires scale >= 1 && cl.Valid(|loc|)
  {
    Sum(Costs(cl, loc, scale))
  }

  function InhabitancyOf(cl: Cluster, loc: seq<nat>, scale: nat, v: nat): real
    requires scale >= 1 && cl.Valid(|loc|)
    requires v < |loc| && loc[v] < |cl.cores|
  {
    var m := loc[v];
    cl.Inhabitancy(LoadOn(cl, loc, m, |loc|), NetOn(cl, loc, m, |loc|), cl.load[v], cl.net[v], scale, m)
  }

  function MigrationOf(cl: Cluster, loc: seq<nat>, scale: nat, v: nat, to: nat): real
    requires scale >= 1 && cl.Valid(|loc|)
    requires v < |loc| && to < |cl.cores|
  {
    cl.Migration(LoadOn(cl, loc, to, |loc|), NetOn(cl, loc, to, |loc|), cl.load[v], cl.net[v], scale, to)
  }

  /** The test a placement has to pass: another PM, at less than half the inhabitancy cost. */
  predicate Accepted(cl: Cluster, loc: seq<nat>, scale: nat, v: nat, to: nat)
    requires scale >= 1 && cl.Valid(|loc|)
    requires v < |loc| && loc[v] < |cl.cores| && to < |cl.cores|
  {
    to != loc[v] && MigrationOf(cl, loc, scale, v, to) < InhabitancyOf(cl, loc, scale, v) / 2.0
  }

  lemma {:induction false} MoveChangesUsage(cl: Cluster, loc: seq<nat>, v: nat, to: nat, m: nat, k: nat)
    requires k <= |loc| == |cl.load| == |cl.net| && v < |loc| && to != loc[v]
    ensures LoadOn(cl, loc[v := to], m, k) - LoadOn(cl, loc, m, k)
         == if v >= k then 0 else if m == to then cl.load[v] as int else if m == loc[v] then -(cl.load[v] as int) else 0
    ensures NetOn(cl, loc[v := to], m, k) - NetOn(cl, loc, m, k)
         == if v >= k then 0.0 else if m == to then cl.net[v] else if m == loc[v] then -cl.net[v] else 0.0
  {
    if k > 0 {
      MoveChangesUsage(cl, loc, v, to, m, k - 1);
    }
  }

  /** A move touches the cost of two PMs only: by the migration cost at the target, by the inhabitancy cost at the source. */
  lemma MoveChangesCost(cl: Cluster, loc: seq<nat>, scale: nat, v: nat, to: nat, m: nat)
    requires scale >= 1 && cl.Valid(|loc|) && ValidLocation(loc, |cl.cores|)
    requires v < |loc| && to < |cl.cores| && to != loc[v] && m < |cl.cores|
    ensures CostAt(cl, loc[v := to], scale, m) - CostAt(cl, loc, scale, m)
         == if m == to then MigrationOf(cl, loc, scale, v, to)
            else if m == loc[v] then -InhabitancyOf(cl, loc, scale, v)
            else 0.0
  {
    MoveChangesUsage(cl, loc, v, to, m, |loc|);
  }

  lemma TwoPointSum(c: seq<real>, c': seq<real>, i: nat, j: nat)
    requires |c| == |c'| && i < |c| && j < |c| && i != j
    requires forall m :: 0 <= m < |c| && m != i && m != j ==> c'[m] == c[m]
    ensures Sum(c') - Sum(c) == (c'[i] - c[i]) + (c'[j] - c[j])
  {
    assert c' == c[i := c'[i]][j := c'[j]];
    SumUpdate(c, i, c'[i]);
    SumUpdate(c[i := c'[i]], j, c'[j]);
  }

  /** The costs a scan compares are exactly the two parts of the change a move makes to the potential. */
  lemma MoveChangesPotential(cl: Cluster, loc: seq<nat>, scale: nat, v: nat, to: nat)
    requires scale >= 1 && cl.Valid(|loc|) && ValidLocation(loc, |cl.cores|)
    requires v < |loc| && to < |cl.cores| && to != loc[v]
    ensures Potential(cl, loc[v := to], scale) - Potential(cl, loc, scale)
         == MigrationOf(cl, loc, scale, v, to) - InhabitancyOf(cl, loc, scale, v)
  {
    var c, c' := Costs(cl, loc, scale), Costs(cl, loc[v := to], scale);
    forall m | 0 <= m < |cl.cores| && m != to && m != loc[v] ensures c'[m] == c[m] {
      MoveChangesCost(cl, loc, scale, v, to, m);
    }
    assert c'[to] - c[to] == MigrationOf(cl, loc, scale, v, to) by {
      MoveChangesCost(cl, loc, scale, v, to, to);
    }
    assert c'[loc[v]] - c[loc[v]] == -InhabitancyOf(cl, loc, scale, v) by {
      MoveChangesCost(cl, loc, scale, v, to, loc[v]);
    }
    TwoPointSum(c, c', to, loc[v]);
  }

  lemma QuotientMonotone(x: real, y: real, d: real)
    requires x <= y && d > 0.0
    ensures x / d <= y / d
  {
  }

  lemma MigrationNotNegative(cl: Cluster, hostLoad: int, hostNet: real, vmLoad: nat, vmNet: real, scale: nat, m: nat)
    requires cl.Monotone() && scale >= 1 && m < |cl.cores| && cl.cores[m] >= 1 && vmNet >= 0.0
    ensures cl.Migration(hostLoad, hostNet, vmLoad, vmNet, scale, m) >= 0.0
  {
    var d := (scale * cl.cores[m]) as real;
    QuotientMonotone(hostLoad as real, (hostLoad + vmLoad) as real, d);
    QuotientMonotone(hostNet, hostNet + vmNet, MAX_PM_NET);
    assert cl.pow(hostLoad as real / d) <= cl.pow((hostLoad + vmLoad) as real / d);
    assert cl.pow(hostNet / MAX_PM_NET) <= cl.pow((hostNet + vmNet) / MAX_PM_NET);
  }

  /** An accepted move strictly lowers the potential, by more than half of the inhabitancy cost it was judged against. */
  lemma AcceptedMoveLowersPotential(cl: Cluster, loc: seq<nat>, scale: nat, v: nat, to: nat)
    requires scale >= 1 && cl.Valid(|loc|) && cl.Monotone() && ValidLocation(loc, |cl.cores|)
    requires v < |loc| && to < |cl.cores| && Accepted(cl, loc, scale, v, to)
    ensures Potential(cl, loc, scale) - Potential(cl, loc[v := to], scale) > InhabitancyOf(cl, loc, scale, v) / 2.0 > 0.0
  {
    MoveChangesPotential(cl, loc, scale, v, to);
    MigrationNotNegative(cl, LoadOn(cl, loc, to, |loc|), NetOn(cl, loc, to, |loc|), cl.load[v], cl.net[v], scale, to);
  }

  /** The two costs in numbers: the power terms of load and net of the PM with the VM, less those without it. */
  lemma CostsInNumbers(cl: Cluster, loc: seq<nat>, scale: nat, v: nat, to: nat)
    requires scale >= 1 && cl.Valid(|loc|) && ValidLocation(loc, |cl.cores|) && v < |loc| && to < |cl.cores|
    ensures var l, x, s := LoadOn(cl, loc, to, |loc|), NetOn(cl, loc, to, |loc|), scale * cl.cores[to];
      MigrationOf(cl, loc, scale, v, to)
      == cl.pow((l + cl.load[v]) as real / s as real) + cl.pow((x + cl.net[v]) / 125_000_000.0)
       - cl.pow(l as real / s as real) - cl.pow(x / 125_000_000.0)
    ensures var m := loc[v];
      var l, x, s := LoadOn(cl, loc, m, |loc|), NetOn(cl, loc, m, |loc|), scale * cl.cores[m];
      InhabitancyOf(cl, loc, scale, v)
      == cl.pow(l as real / s as real) + cl.pow(x / 125_000_000.0)
       - cl.pow((l - cl.load[v]) as real / s as real) - cl.pow((x - cl.net[v]) / 125_000_000.0)
  {
  }

  /** A VM is accepted on another PM if twice what that costs is less than what it costs to stay. */
  lemma AcceptedIff(cl: Cluster, loc: seq<nat>, scale: nat, v: nat, to: nat)
    requires scale >= 1 && cl.Valid(|loc|) && ValidLocation(loc, |cl.cores|) && v < |loc| && to < |cl.cores|
    ensures Accepted(cl, loc, scale, v, to)
       <==> to != loc[v] && 2.0 * MigrationOf(cl, loc, scale, v, to) < InhabitancyOf(cl, loc, scale, v)
  {
  }
}
