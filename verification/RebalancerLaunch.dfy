/** How the rebalancer's records come about (simgrid/simgrid-project/hpvc.c:964-1036): VMs are created host by host, and when
    their number is not a multiple of the number of hosts, hosts with an odd index get one more than the others. */
module RebalancerLaunch {
  import opened Arithmetic
  import opened Rebalancing
  import opened VmRecords
  import opened Rebalancer

  /** VMs that the `p`-th host of the cluster may get: `q`, and one more on hosts with an odd index if they are unequal. The index
      of the cluster's first host is `first`. */
  function Share(first: nat, q: nat, unequal: bool, p: nat): nat {
    q + if unequal && (first + p) % 2 == 1 then 1 else 0
  }

  /** All that the first `p` hosts may get. */
  function Room(first: nat, q: nat, unequal: bool, p: nat): nat {
    if p == 0 then 0 else Room(first, q, unequal, p - 1) + Share(first, q, unequal, p - 1)
  }

  function Least(a: nat, b: nat): nat { if a < b then a else b }

  lemma {:induction false} RoomIs(first: nat, q: nat, unequal: bool, p: nat)
    ensures Room(first, q, unequal, p) == q * p + if unequal then (p + first % 2) / 2 else 0
  {
    if p > 0 {
      RoomIs(first, q, unequal, p - 1);
      OneMore(p - 1, q);
      OneMoreExtra(first, p - 1);
    }
  }

  lemma OneMoreExtra(first: nat, p: nat)
    ensures (p + 1 + first % 2) / 2 == (p + first % 2) / 2 + (first + p) % 2
  {
    var a, q, d := first / 2, (p + first % 2) / 2, (p + first % 2) % 2;
    Half(q, d);
    Half(a + q, d);
    assert first + p == 2 * (a + q) + d;
    if d == 0 { Half(q, 1); } else { Half(q + 1, 0); }
  }

  lemma Half(q: nat, d: nat)
    requires d < 2
    ensures (2 * q + d) / 2 == q && (2 * q + d) % 2 == d
  {
  }

  lemma OneMore(p: nat, q: nat)
    ensures q * (p + 1) == q * p + q
  {
  }

  /** VMs that are created of `vms` on `pms` hosts. */
  function Created(first: nat, pms: nat, vms: nat): nat
    requires pms >= 1
  {
    Least(Room(first, vms / pms, vms % pms != 0, pms), vms)
  }

  /** Not every VM need be created: all are if and only if the remainder is no more than the number of hosts with an odd index. */
  lemma AllCreatedIff(first: nat, pms: nat, vms: nat)
    requires pms >= 1
    ensures Created(first, pms, vms) == vms <==> vms % pms <= (pms + first % 2) / 2
  {
    RoomIs(first, vms / pms, vms % pms != 0, pms);
    DivMod(vms, pms);
  }

  /** In the run the repository's README gives, 480 VMs on the 603 hosts of cluster.xml in two clusters, each cluster has 300
      hosts, the first of them 0 and 301, and gets only 450 VMs. */
  lemma ThirtyAreLost(first: nat, pms: nat, vms: nat)
    requires pms == (603 - 1) / 2 - 1 && vms == 480 && (first == 0 || first == 301)
    ensures pms == 300 && Created(first, pms, vms) == 450
  {
    var q, unequal := vms / pms, vms % pms != 0;
    assert q == 1 && unequal;
    RoomIs(first, q, unequal, pms);
  }

  /** A record of the VMs from `start` on. */
  ghost predicate Block(rec: seq<nat>, start: nat) {
    forall s :: 0 <= s < |rec| ==> rec[s] == start + s
  }

  /** `loc'` goes on where `loc` ends, on host `p` only. */
  ghost predicate Continues(loc: seq<nat>, loc': seq<nat>, p: nat) {
    |loc| <= |loc'| && loc'[..|loc|] == loc && forall v :: |loc| <= v < |loc'| ==> loc'[v] == p
  }

  lemma OthersKept(rec: seq<nat>, loc: seq<nat>, loc': seq<nat>, m: nat, p: nat)
    requires Lists(rec, loc, m) && Continues(loc, loc', p) && m != p
    ensures Lists(rec, loc', m)
  {
    forall v: nat ensures v in rec <==> v < |loc'| && loc'[v] == m {
      assert v < |loc| ==> loc'[v] == loc'[..|loc|][v];
    }
  }

  lemma BlockLists(rec: seq<nat>, loc: seq<nat>, loc': seq<nat>, p: nat)
    requires Block(rec, |loc|) && Continues(loc, loc', p) && |loc'| == |loc| + |rec|
    requires forall v :: 0 <= v < |loc| ==> loc[v] < p
    ensures Lists(rec, loc', p)
  {
    forall v: nat ensures v in rec <==> v < |loc'| && loc'[v] == p {
      assert v < |loc| ==> loc'[v] == loc'[..|loc|][v];
      assert |loc| <= v < |loc'| ==> rec[v - |loc|] == v;
    }
  }

  /** The inner loop: the VMs of one host. */
  method FillHost(p: nat, threshold: nat, vms: nat, loc: seq<nat>) returns (rec: seq<nat>, loc': seq<nat>)
    requires |loc| <= threshold && |loc| <= vms
    ensures Block(rec, |loc|) && Continues(loc, loc', p) && |loc'| == |loc| + |rec| == Least(threshold, vms)
  {
    var i := |loc|;
    rec, loc' := [], loc;
    while i < threshold && i < vms
      invariant |loc| <= i == |loc'| == |loc| + |rec| && i <= threshold && i <= vms
      invariant Block(rec, |loc|) && Continues(loc, loc', p)
    {
      rec := rec + [i];
      loc' := loc' + [p];
      i := i + 1;
    }
  }

  /** The records of the first `p` hosts describe the VMs created so far; the others are empty. */
  ghost predicate Launched(records: seq<seq<nat>>, loc: seq<nat>, p: nat, most: nat) {
    && p <= |records| && ValidLocation(loc, p)
    && (forall m :: 0 <= m < p ==> Lists(records[m], loc, m) && |records[m]| <= most)
  }

  lemma HostLaunched(records: seq<seq<nat>>, loc: seq<nat>, rec: seq<nat>, loc': seq<nat>, p: nat, most: nat)
    requires Launched(records, loc, p, most) && p < |records| && |rec| <= most
    requires Block(rec, |loc|) && Continues(loc, loc', p) && |loc'| == |loc| + |rec|
    ensures Launched(records[p := rec], loc', p + 1, most)
  {
    BlockLists(rec, loc, loc', p);
    forall v | 0 <= v < |loc'| ensures loc'[v] < p + 1 {
      assert v < |loc| ==> loc'[v] == loc'[..|loc|][v];
    }
    forall m | 0 <= m < p ensures Lists(records[m], loc', m) {
      OthersKept(records[m], loc, loc', m, p);
    }
  }

  /** The launch: valid records for the VMs that are created, with no more on any host than it may get. A record has room for
      MAX_VM_TO_PM VMs, which the code relies on. */
  method Launch(first: nat, pms: nat, vms: nat) returns (records: array<seq<nat>>, loc: seq<nat>)
    requires pms >= 1 && vms / pms + (if vms % pms != 0 then 1 else 0) <= MAX_VM_TO_PM
    ensures fresh(records) && records.Length == pms
    ensures Launched(records[..], loc, pms, MAX_VM_TO_PM) && |loc| == Created(first, pms, vms)
    ensures forall m :: 0 <= m < pms ==> |records[m]| <= vms / pms + 1
  {
    records := new seq<nat>[pms](_ => []);
    loc := CreateVms(records, first, vms, vms / pms, vms % pms != 0);
  }

  method CreateVms(records: array<seq<nat>>, first: nat, vms: nat, q: nat, unequal: bool) returns (loc: seq<nat>)
    modifies records
    ensures Launched(records[..], loc, records.Length, q + if unequal then 1 else 0)
    ensures |loc| == Least(Room(first, q, unequal, records.Length), vms)
  {
    loc := [];
    for p := 0 to records.Length
      invariant Launched(records[..], loc, p, q + if unequal then 1 else 0)
      invariant |loc| == Least(Room(first, q, unequal, p), vms)
    {
      var threshold := |loc| + if unequal && (first + p) % 2 == 1 then q + 1 else q;
      ghost var before, was := records[..], loc;
      var rec;
      rec, loc := FillHost(p, threshold, vms, loc);
      HostLaunched(before, was, rec, loc, p, q + if unequal then 1 else 0);
      records[p] := rec;
      assert records[..] == before[p := rec];
    }
  }

  /** The rebalancer as it starts: the scale is at least the VM count of every host. */
  method Start(first: nat, pms: nat, vms: nat) returns (s: Scanner)
    requires pms >= 1 && vms / pms + (if vms % pms != 0 then 1 else 0) <= MAX_VM_TO_PM
    ensures fresh(s) && s.Valid() && s.pms == pms && s.vms == Created(first, pms, vms)
    ensures s.maxPmVm == vms / pms + 1 && forall m :: 0 <= m < pms ==> |s.records[m]| <= s.maxPmVm
  {
    var records, loc := Launch(first, pms, vms);
    s := new Scanner(pms, |loc|, loc, records, vms / pms + 1);
  }
}
