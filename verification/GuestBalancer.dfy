/** The guest load balancer (simgrid/organizer/hpvc.c:355-472): which VM it places a process on, and how its load scale grows. */
module GuestBalancer {
  import opened RealSums
  import opened Arithmetic
  import opened Circle

  const MAX_VM_MEMORY: real := 1000000000.0
  const MAX_VM_NET: real := 125000000.0

  /** What the balancer sees of the VMs: process counts and reserved memory and net. `pow` is pow(number_of_vm, .). */
  datatype Guests = Guests(pow: real -> real, load: seq<nat>, mem: seq<real>, net: seq<real>) {
    predicate Valid() {
      |load| == |mem| == |net| >= 1
    }

    function Cost(l: nat, m: real, n: real, scale: nat): real
      requires scale >= 1
    {
      pow(l as real / scale as real) + pow(m / MAX_VM_MEMORY) + pow(n / MAX_VM_NET)
    }

    function CostOf(v: nat, scale: nat): real
      requires Valid() && v < |load| && scale >= 1
    {
      Cost(load[v], mem[v], net[v], scale)
    }

    /** What one more process asking for (rm, rn) would add at VM `v`. */
    function Marginal(v: nat, rm: real, rn: real, scale: nat): real
      requires Valid() && v < |load| && scale >= 1
    {
      Cost(load[v] + 1, mem[v] + rm, net[v] + rn, scale) - CostOf(v, scale)
    }

    /** The VMs after such a process is placed at `v`. */
    function Place(v: nat, rm: real, rn: real): (g: Guests)
      requires Valid() && v < |load|
      ensures g.Valid() && |g.load| == |load|
    {
      Guests(pow, load[v := load[v] + 1], mem[v := mem[v] + rm], net[v := net[v] + rn])
    }

    function Marginals(rm: real, rn: real, scale: nat): (r: seq<real>)
      requires Valid() && scale >= 1
      ensures |r| == |load|
    {
      seq(|load|, v requires 0 <= v < |load| => Marginal(v, rm, rn, scale))
    }

    function Costs(scale: nat): (r: seq<real>)
      requires Valid() && scale >= 1
      ensures |r| == |load|
    {
      seq(|load|, v requires 0 <= v < |load| => CostOf(v, scale))
    }

    function Potential(scale: nat): real
      requires Valid() && scale >= 1
    {
      Sum(Costs(scale))
    }
  }

  function After(v: nat, n: nat): (w: nat)
    requires v < n
    ensures w < n
  {
    if v + 1 < n then v + 1 else 0
  }

  /** The z-th VM of the circular scan that starts after `selected`. */
  function Visited(selected: nat, z: nat, n: nat): (v: nat)
    requires selected < n && z < n
    ensures v < n
  {
    Circular(After(selected, n), z, n)
  }

  /** The z-th VM visited is the one z + 1 places after the last one selected. */
  lemma VisitedIsModular(selected: nat, z: nat, n: nat)
    requires selected < n && z < n
    ensures Visited(selected, z, n) == (selected + 1 + z) % n
  {
    if selected + 1 < n {
      CircularIsModular(selected + 1, z, n);
    } else {
      CircularIsModular(0, z, n);
      AddMod(n, z, n);
      DivIs(1, 0, n);
    }
  }

  lemma VisitedNext(selected: nat, z: nat, n: nat)
    requires selected < n && z < n
    ensures z + 1 < n ==> Visited(selected, z + 1, n) == After(Visited(selected, z, n), n)
  {
  }

  /** The scan meets every VM exactly once. */
  lemma EveryVmOnce(selected: nat, n: nat, v: nat)
    requires selected < n && v < n
    ensures exists z :: 0 <= z < n && Visited(selected, z, n) == v
                        && forall y :: 0 <= y < n && Visited(selected, y, n) == v ==> y == z
  {
    CircularVisitsOnce(After(selected, n), n, v);
    var z :| 0 <= z < n && Circular(After(selected, n), z, n) == v;
    assert Visited(selected, z, n) == v;
  }

  /** `v` is the first VM, in scan order, of least cost among the first `k` visited. */
  ghost predicate FirstCheapest(costs: seq<real>, selected: nat, k: nat, v: nat)
    requires selected < |costs| && k <= |costs| && v < |costs|
  {
    exists z :: 0 <= z < k && Visited(selected, z, |costs|) == v
      && (forall y :: 0 <= y < k ==> costs[v] <= costs[Visited(selected, y, |costs|)])
      && (forall y :: 0 <= y < z ==> costs[v] < costs[Visited(selected, y, |costs|)])
  }

  lemma FirstCheapestStep(costs: seq<real>, selected: nat, k: nat, v: nat)
    requires selected < |costs| && k < |costs| && v < |costs|
    requires k > 0 ==> FirstCheapest(costs, selected, k, v)
    ensures var u := Visited(selected, k, |costs|);
      FirstCheapest(costs, selected, k + 1, if k == 0 || costs[u] < costs[v] then u else v)
  {
  }

  /** `max_guest_job` after a placement that brings a VM to `newLoad` processes. */
  function NextScale(scale: nat, newLoad: nat): nat {
    if newLoad >= scale then 2 * scale else scale
  }

  class Balancer {
    var selected: nat
    var maxGuestJob: nat

    constructor ()
      ensures selected == 0 && maxGuestJob == 1
    {
      selected, maxGuestJob := 0, 1;
    }

    /** The circular scan: every VM once, starting after the last one selected. A first candidate always beats DBL_MAX. */
    method Scan(g: Guests, rm: real, rn: real, ghost costs: seq<real>) returns (best: nat)
      requires g.Valid() && selected < |g.load| && maxGuestJob >= 1 && costs == g.Marginals(rm, rn, maxGuestJob)
      ensures best < |g.load| && FirstCheapest(costs, selected, |g.load|, best)
    {
      var n := |g.load|;
      best := selected;
      var minCost := 0.0;
      var i := selected + 1;
      for visited := 0 to n
        invariant best < n && 0 < i <= n && (visited < n ==> After(i - 1, n) == Visited(selected, visited, n))
        invariant visited > 0 ==> FirstCheapest(costs, selected, visited, best) && minCost == costs[best]
      {
        if i >= n {
          i := 0;
        }
        assert i == Visited(selected, visited, n);
        VisitedNext(selected, visited, n);
        FirstCheapestStep(costs, selected, visited, best);
        best, minCost := Compare(g, i, rm, rn, costs, visited == 0, best, minCost);
        i := i + 1;
      }
    }

    /** VM `v` against the best so far. */
    method Compare(g: Guests, v: nat, rm: real, rn: real, ghost costs: seq<real>, first: bool, before: nat, costBefore: real)
      returns (best: nat, minCost: real)
      requires g.Valid() && v < |g.load| && maxGuestJob >= 1 && costs == g.Marginals(rm, rn, maxGuestJob)
      requires before < |g.load| && (!first ==> costBefore == costs[before])
      ensures best == (if first || costs[v] < costs[before] then v else before) && minCost == costs[best]
    {
      best, minCost := before, costBefore;
      var marginal := g.Marginal(v, rm, rn, maxGuestJob);
      assert marginal == costs[v];
      if first || marginal < minCost {
        minCost := marginal;
        best := v;
      }
    }

    /** Serve one placement request: select, and double the scale if the selected VM reaches it. */
    method Assign(g: Guests, rm: real, rn: real) returns (home: nat)
      requires g.Valid() && selected < |g.load| && maxGuestJob >= 1
      modifies this
      ensures home == selected < |g.load|
      ensures FirstCheapest(g.Marginals(rm, rn, old(maxGuestJob)), old(selected), |g.load|, home)
      ensures maxGuestJob == NextScale(old(maxGuestJob), g.load[home] + 1)
    {
      home := Scan(g, rm, rn, g.Marginals(rm, rn, maxGuestJob));
      selected := home;
      var newLoad := g.load[home] + 1;
      if newLoad >= maxGuestJob {
        maxGuestJob := maxGuestJob * 2;
      }
    }
  }

  /** The marginal cost is what the placement adds to the total potential. */
  lemma MarginalIsDifference(g: Guests, v: nat, rm: real, rn: real, scale: nat)
    requires g.Valid() && v < |g.load| && scale >= 1
    ensures g.Place(v, rm, rn).Potential(scale) == g.Potential(scale) + g.Marginal(v, rm, rn, scale)
  {
    var c, c' := g.Costs(scale), g.Place(v, rm, rn).Costs(scale);
    assert c' == c[v := c'[v]];
    SumUpdate(c, v, c'[v]);
  }

  /** No other single placement of the same request gives a smaller total potential. */
  lemma AssignIsOptimal(g: Guests, rm: real, rn: real, scale: nat, selected: nat, home: nat, other: nat)
    requires g.Valid() && scale >= 1 && selected < |g.load| && other < |g.load| && home < |g.load|
    requires FirstCheapest(g.Marginals(rm, rn, scale), selected, |g.load|, home)
    ensures g.Place(home, rm, rn).Potential(scale) <= g.Place(other, rm, rn).Potential(scale)
  {
    EveryVmOnce(selected, |g.load|, other);
    MarginalIsDifference(g, home, rm, rn, scale);
    MarginalIsDifference(g, other, rm, rn, scale);
  }

  /** Placements one after another while the scale stays and no process exits. */
  datatype Request = Request(vm: nat, mem: real, net: real)

  predicate ValidRequests(g: Guests, rs: seq<Request>) {
    forall i :: 0 <= i < |rs| ==> rs[i].vm < |g.load|
  }

  function PlaceAll(g: Guests, rs: seq<Request>): (r: Guests)
    requires g.Valid() && ValidRequests(g, rs)
    ensures r.Valid() && |r.load| == |g.load|
  {
    if rs == [] then g
    else
      var last := rs[|rs| - 1];
      PlaceAll(g, rs[..|rs| - 1]).Place(last.vm, last.mem, last.net)
  }

  function MarginalSum(g: Guests, rs: seq<Request>, scale: nat): real
    requires g.Valid() && ValidRequests(g, rs) && scale >= 1
  {
    if rs == [] then 0.0
    else
      var last := rs[|rs| - 1];
      MarginalSum(g, rs[..|rs| - 1], scale) + PlaceAll(g, rs[..|rs| - 1]).Marginal(last.vm, last.mem, last.net, scale)
  }

  /** The marginal costs paid telescope to the growth of the potential. */
  lemma {:induction false} MarginalsTelescope(g: Guests, rs: seq<Request>, scale: nat)
    requires g.Valid() && ValidRequests(g, rs) && scale >= 1
    ensures MarginalSum(g, rs, scale) == PlaceAll(g, rs).Potential(scale) - g.Potential(scale)
  {
    if rs != [] {
      var init, last := rs[..|rs| - 1], rs[|rs| - 1];
      MarginalsTelescope(g, init, scale);
      MarginalIsDifference(PlaceAll(g, init), last.vm, last.mem, last.net, scale);
    }
  }

  /** The request that `create_tasks` sends carries the memory need in place of the net need (line 595), while the reservation
      it makes afterwards uses the net need. With two or more VMs, where pow(number_of_vm, .) rises strictly, the marginal cost
      the balancer saw is what the process really adds if and only if the two needs are the same number. */
  lemma MisstatedRequest(g: Guests, v: nat, memory: real, net: real, scale: nat)
    requires g.Valid() && v < |g.load| && scale >= 1 && forall x, y :: x < y ==> g.pow(x) < g.pow(y)
    ensures g.Place(v, memory, net).Potential(scale) == g.Potential(scale) + g.Marginal(v, memory, memory, scale)
       <==> memory == net
  {
    MarginalIsDifference(g, v, memory, net, scale);
    var asked, needed := (g.net[v] + memory) / MAX_VM_NET, (g.net[v] + net) / MAX_VM_NET;
    assert asked == needed <==> memory == net;
    assert g.pow(asked) == g.pow(needed) <==> asked == needed by {
      assert asked < needed ==> g.pow(asked) < g.pow(needed);
    }
  }
}
