/** The rebalancer itself (simgrid/simgrid-project/hpvc.c): a scan over the PMs that replaces `host_vm_info` records in place.
    The bookkeeping of `place_vm` is the intended one; module RebalancerAsWritten says what the written one does. */
module Rebalancer {
  import opened Rebalancing
  import opened VmRecords
  import opened RebalancingRuns
  import opened Arithmetic
  import opened Circle

  datatype Choice = Stay | Move(slot: nat, to: nat)

  /** The sums the scan accumulates over the slots of a record. */
  function RecordLoad(cl: Cluster, rec: seq<nat>): int
    requires forall i :: 0 <= i < |rec| ==> rec[i] < |cl.load|
  {
    if rec == [] then 0 else RecordLoad(cl, rec[..|rec| - 1]) + cl.load[rec[|rec| - 1]]
  }

  function RecordNet(cl: Cluster, rec: seq<nat>): real
    requires forall i :: 0 <= i < |rec| ==> rec[i] < |cl.net|
  {
    if rec == [] then 0.0 else RecordNet(cl, rec[..|rec| - 1]) + cl.net[rec[|rec| - 1]]
  }

  lemma {:induction false} RemoveSlotSums(cl: Cluster, rec: seq<nat>, i: nat)
    requires i < |rec| && |cl.load| == |cl.net|
    requires forall j :: 0 <= j < |rec| ==> rec[j] < |cl.load|
    ensures RecordLoad(cl, RemoveSlot(rec, i)) == RecordLoad(cl, rec) - cl.load[rec[i]]
    ensures RecordNet(cl, RemoveSlot(rec, i)) == RecordNet(cl, rec) - cl.net[rec[i]]
  {
    var n := |rec| - 1;
    if i == n {
      assert RemoveSlot(rec, i) == rec[..n];
    } else {
      RemoveSlotSums(cl, rec[..n], i);
      var r := RemoveSlot(rec, i);
      assert r[..|r| - 1] == RemoveSlot(rec[..n], i);
    }
  }

  /** What is summed over a record is what runs on that PM. */
  lemma TakeLast(cl: Cluster, rec: seq<nat>, loc: seq<nat>, m: nat, k: nat) returns (rest: seq<nat>)
    requires k < |loc| == |cl.load| == |cl.net| && ListsUpTo(rec, loc, m, k + 1) && loc[k] == m
    requires forall i :: 0 <= i < |rec| ==> rec[i] < |loc|
    ensures ListsUpTo(rest, loc, m, k) && forall i :: 0 <= i < |rest| ==> rest[i] < |loc|
    ensures RecordLoad(cl, rec) == RecordLoad(cl, rest) + cl.load[k] && RecordNet(cl, rec) == RecordNet(cl, rest) + cl.net[k]
  {
    var i := Find(rec, k);
    RemoveSlotLists(rec, loc, m, k, i);
    RemoveSlotSums(cl, rec, i);
    rest := RemoveSlot(rec, i);
  }

  lemma {:induction false} RecordSums(cl: Cluster, rec: seq<nat>, loc: seq<nat>, m: nat, k: nat)
    requires k <= |loc| == |cl.load| == |cl.net| && ListsUpTo(rec, loc, m, k)
    ensures forall i :: 0 <= i < |rec| ==> rec[i] < k
    ensures RecordLoad(cl, rec) == LoadOn(cl, loc, m, k)
    ensures RecordNet(cl, rec) == NetOn(cl, loc, m, k)
    decreases k
  {
    ListedInRange(rec, loc, m, k);
    if k > 0 {
      if loc[k - 1] == m {
        var rest := TakeLast(cl, rec, loc, m, k - 1);
        RecordSums(cl, rest, loc, m, k - 1);
      } else {
        RecordSums(cl, rec, loc, m, k - 1);
      }
    }
  }

  predicate Before(s: nat, k: nat, s': nat, k': nat) {
    s < s' || (s == s' && k < k')
  }

  /** VM `v` could go to `to`, at cost `c`. */
  ghost predicate Offer(cl: Cluster, loc: seq<nat>, scale: nat, v: nat, to: nat)
    requires scale >= 1 && cl.Valid(|loc|) && ValidLocation(loc, |cl.cores|)
  {
    v < |loc| && to < |cl.cores| && Accepted(cl, loc, scale, v, to)
  }

  /** `choice` is the cheapest acceptable (slot, target) before (s, k), the last one of equally cheap ones. */
  ghost predicate Cheapest(cl: Cluster, loc: seq<nat>, scale: nat, rec: seq<nat>, choice: Choice, s: nat, k: nat)
    requires scale >= 1 && cl.Valid(|loc|) && ValidLocation(loc, |cl.cores|)
    requires forall i :: 0 <= i < |rec| ==> rec[i] < |loc|
  {
    match choice
    case Stay =>
      forall s', k' :: 0 <= s' < |rec| && 0 <= k' < |cl.cores| && Before(s', k', s, k) ==> !Offer(cl, loc, scale, rec[s'], k')
    case Move(slot, to) =>
      && slot < |rec| && to < |cl.cores| && Before(slot, to, s, k) && Offer(cl, loc, scale, rec[slot], to)
      && forall s', k' :: 0 <= s' < |rec| && 0 <= k' < |cl.cores| && Before(s', k', s, k) && Offer(cl, loc, scale, rec[s'], k') ==>
           && MigrationOf(cl, loc, scale, rec[slot], to) <= MigrationOf(cl, loc, scale, rec[s'], k')
           && (Before(slot, to, s', k') ==> MigrationOf(cl, loc, scale, rec[slot], to) < MigrationOf(cl, loc, scale, rec[s'], k'))
  }

  /** The choice after (s, k) has been looked at as well. */
  ghost function Improved(cl: Cluster, loc: seq<nat>, scale: nat, rec: seq<nat>, choice: Choice, s: nat, k: nat): Choice
    requires scale >= 1 && cl.Valid(|loc|) && ValidLocation(loc, |cl.cores|)
    requires forall i :: 0 <= i < |rec| ==> rec[i] < |loc|
    requires s < |rec| && k < |cl.cores| && (choice.Move? ==> choice.slot < |rec| && choice.to < |cl.cores|)
  {
    if Offer(cl, loc, scale, rec[s], k)
       && (choice.Stay? || MigrationOf(cl, loc, scale, rec[s], k) <= MigrationOf(cl, loc, scale, rec[choice.slot], choice.to))
    then Move(s, k) else choice
  }

  lemma CheapestNext(cl: Cluster, loc: seq<nat>, scale: nat, rec: seq<nat>, choice: Choice, s: nat, k: nat)
    requires scale >= 1 && cl.Valid(|loc|) && ValidLocation(loc, |cl.cores|)
    requires forall i :: 0 <= i < |rec| ==> rec[i] < |loc|
    requires s < |rec| && k < |cl.cores| && Cheapest(cl, loc, scale, rec, choice, s, k)
    ensures Cheapest(cl, loc, scale, rec, Improved(cl, loc, scale, rec, choice, s, k), s, k + 1)
  {
  }

  /** There is only one such choice. */
  lemma CheapestUnique(cl: Cluster, loc: seq<nat>, scale: nat, rec: seq<nat>, choice: Choice, other: Choice, s: nat, k: nat)
    requires scale >= 1 && cl.Valid(|loc|) && ValidLocation(loc, |cl.cores|)
    requires forall i :: 0 <= i < |rec| ==> rec[i] < |loc|
    requires Cheapest(cl, loc, scale, rec, choice, s, k) && Cheapest(cl, loc, scale, rec, other, s, k)
    ensures choice == other
  {
    if choice.Move? && other.Move? {
      assert Before(choice.slot, choice.to, other.slot, other.to) || Before(other.slot, other.to, choice.slot, choice.to)
             || choice == other;
    }
  }

  /** What the choice over a whole record means: it is accepted, no acceptable move costs less, and none that stands later, by slot
      and then by target, costs as little; to stay means that no move is acceptable. */
  lemma CheapestMeans(cl: Cluster, loc: seq<nat>, scale: nat, rec: seq<nat>, choice: Choice, s: nat, k: nat)
    requires scale >= 1 && cl.Valid(|loc|) && ValidLocation(loc, |cl.cores|)
    requires forall i :: 0 <= i < |rec| ==> rec[i] < |loc|
    requires Cheapest(cl, loc, scale, rec, choice, |rec|, 0)
    requires s < |rec| && k < |cl.cores| && Accepted(cl, loc, scale, rec[s], k)
    ensures choice.Move? && choice.slot < |rec| && choice.to < |cl.cores| && Accepted(cl, loc, scale, rec[choice.slot], choice.to)
    ensures MigrationOf(cl, loc, scale, rec[choice.slot], choice.to) <= MigrationOf(cl, loc, scale, rec[s], k)
    ensures s > choice.slot || (s == choice.slot && k > choice.to) ==>
              MigrationOf(cl, loc, scale, rec[choice.slot], choice.to) < MigrationOf(cl, loc, scale, rec[s], k)
  {
    assert Offer(cl, loc, scale, rec[s], k);
  }

  lemma CheapestRow(cl: Cluster, loc: seq<nat>, scale: nat, rec: seq<nat>, choice: Choice, s: nat)
    requires scale >= 1 && cl.Valid(|loc|) && ValidLocation(loc, |cl.cores|)
    requires forall i :: 0 <= i < |rec| ==> rec[i] < |loc|
    requires s < |rec| && Cheapest(cl, loc, scale, rec, choice, s, |cl.cores|)
    ensures Cheapest(cl, loc, scale, rec, choice, s + 1, 0)
  {
  }

  lemma RunExtends(cl: Cluster, run: seq<Placement>, p: Placement)
    requires Run(cl, run) && p.Valid(cl) && |p.loc| == |run[0].loc| && Step(cl, run[|run| - 1], p)
    ensures Run(cl, run + [p])
  {
  }

  lemma IsStep(cl: Cluster, p: Placement, p': Placement, v: nat, to: nat)
    requires p.Valid(cl) && Migrates(cl, p, p', v, to)
    ensures Step(cl, p, p')
  {
  }

  /** A scan makes no migration at PM `m`: its choice, whatever it is, is to stay or a full target. */
  ghost predicate Quiet(cl: Cluster, p: Placement, records: seq<seq<nat>>, m: nat)
    requires p.scale >= 1 && cl.Valid(|p.loc|) && ValidLocation(p.loc, |cl.cores|) && m < |records| == |cl.cores|
  {
    && (forall i :: 0 <= i < |records[m]| ==> records[m][i] < |p.loc|)
    && forall choice :: Cheapest(cl, p.loc, p.scale, records[m], choice, |records[m]|, 0) ==>
         choice.Stay? || |records[choice.to]| >= MAX_VM_TO_PM
  }

  /** No PM gives rise to a migration. */
  ghost predicate AtRest(cl: Cluster, p: Placement, records: seq<seq<nat>>)
    requires p.scale >= 1 && cl.Valid(|p.loc|) && ValidLocation(p.loc, |cl.cores|) && |records| == |cl.cores|
  {
    forall m :: 0 <= m < |records| ==> Quiet(cl, p, records, m)
  }

  lemma ChoiceIsQuiet(cl: Cluster, p: Placement, records: seq<seq<nat>>, m: nat, choice: Choice)
    requires p.scale >= 1 && cl.Valid(|p.loc|) && ValidLocation(p.loc, |cl.cores|) && m < |records| == |cl.cores|
    requires forall i :: 0 <= i < |records[m]| ==> records[m][i] < |p.loc|
    requires Cheapest(cl, p.loc, p.scale, records[m], choice, |records[m]|, 0)
    ensures Quiet(cl, p, records, m) <==> choice.Stay? || |records[choice.to]| >= MAX_VM_TO_PM
  {
    forall other | Cheapest(cl, p.loc, p.scale, records[m], other, |records[m]|, 0) ensures other == choice {
      CheapestUnique(cl, p.loc, p.scale, records[m], other, choice, |records[m]|, 0);
    }
  }

  /** A circular scan from any offset that finds every PM quiet finds them all at rest. */
  lemma AllExamined(cl: Cluster, p: Placement, records: seq<seq<nat>>, x: nat)
    requires p.scale >= 1 && cl.Valid(|p.loc|) && ValidLocation(p.loc, |cl.cores|) && x < |records| == |cl.cores|
    requires forall z :: 0 <= z < |records| ==> Quiet(cl, p, records, Circular(x, z, |records|))
    ensures AtRest(cl, p, records)
  {
    forall m | 0 <= m < |records| ensures Quiet(cl, p, records, m) {
      CircularVisitsOnce(x, |records|, m);
      var z :| 0 <= z < |records| && Circular(x, z, |records|) == m;
    }
  }

  /** When a scan leaves a PM alone, every VM there costs at least half as much anywhere else as it costs to stay. */
  lemma StayMeansStable(cl: Cluster, loc: seq<nat>, scale: nat, rec: seq<nat>, m: nat, v: nat, to: nat)
    requires scale >= 1 && cl.Valid(|loc|) && ValidLocation(loc, |cl.cores|) && Lists(rec, loc, m)
    requires forall i :: 0 <= i < |rec| ==> rec[i] < |loc|
    requires Cheapest(cl, loc, scale, rec, Stay, |rec|, 0)
    requires v < |loc| && loc[v] == m && to < |cl.cores| && to != m
    ensures MigrationOf(cl, loc, scale, v, to) >= InhabitancyOf(cl, loc, scale, v) / 2.0
  {
    assert v in rec;
    var s :| 0 <= s < |rec| && rec[s] == v;
    assert Before(s, to, |rec|, 0);
    assert !Offer(cl, loc, scale, rec[s], to);
  }

  lemma OneMoreNote(migrated: seq<bool>, busy: nat, some: bool)
    requires (forall j :: 0 <= j < |migrated| ==> (migrated[j] <==> j < busy)) && busy <= |migrated| && (some ==> busy == |migrated|)
    ensures forall j :: 0 <= j <= |migrated| ==> ((migrated + [some])[j] <==> j < if some then busy + 1 else busy)
  {
  }

  class Scanner {
    const pms: nat
    const vms: nat
    /** `host_vm_info` of every PM: the used slots. */
    var records: array<seq<nat>>
    /** The PM each VM runs on, as the virtualization layer reports it. */
    var location: seq<nat>
    var maxPmVm: nat
    var migrationCount: nat

    ghost predicate Valid()
      reads this, records
    {
      && records.Length == pms && |location| == vms && maxPmVm >= 1
      && ValidLocation(location, pms)
      && forall m :: 0 <= m < pms ==> Lists(records[m], location, m) && |records[m]| <= MAX_VM_TO_PM
    }

    ghost function Abs(): Placement
      reads this
    {
      Placement(location, maxPmVm)
    }

    constructor (pms: nat, vms: nat, location: seq<nat>, records: array<seq<nat>>, scale: nat)
      requires records.Length == pms && |location| == vms && scale >= 1 && ValidLocation(location, pms)
      requires forall m :: 0 <= m < pms ==> Lists(records[m], location, m) && |records[m]| <= MAX_VM_TO_PM
      ensures Valid() && this.pms == pms && this.vms == vms && this.records == records
      ensures Abs() == Placement(location, scale) && migrationCount == 0
    {
      this.pms, this.vms := pms, vms;
      this.location, this.records := location, records;
      maxPmVm, migrationCount := scale, 0;
    }

    /** The loops that add up a host's usage over its record. */
    method HostUsage(cl: Cluster, m: nat) returns (load: int, net: real)
      requires Valid() && cl.Valid(vms) && m < pms
      ensures load == LoadOn(cl, location, m, vms) && net == NetOn(cl, location, m, vms)
    {
      var rec := records[m];
      RecordSums(cl, rec, location, m, vms);
      load, net := 0, 0.0;
      for i := 0 to |rec|
        invariant load == RecordLoad(cl, rec[..i]) && net == RecordNet(cl, rec[..i])
      {
        assert rec[..i + 1][..i] == rec[..i];
        load, net := load + cl.load[rec[i]], net + cl.net[rec[i]];
      }
      assert rec[..|rec|] == rec;
    }

    /** One VM of PM `m` against one PM `k`. */
    method Weigh(cl: Cluster, m: nat, slot: nat, k: nat, inhabitancy: real, before: Choice, costBefore: real)
      returns (choice: Choice, minCost: real)
      requires Valid() && cl.Valid(vms) && |cl.cores| == pms && m < pms && k < pms && slot < |records[m]|
      requires forall i :: 0 <= i < |records[m]| ==> records[m][i] < vms && location[records[m][i]] == m
      requires inhabitancy == InhabitancyOf(cl, location, maxPmVm, records[m][slot])
      requires before.Move? ==> before.slot < |records[m]| && before.to < pms
      requires before.Move? ==> costBefore == MigrationOf(cl, location, maxPmVm, records[m][before.slot], before.to)
      ensures choice == Improved(cl, location, maxPmVm, records[m], before, slot, k)
      ensures choice.Move? ==> minCost == MigrationOf(cl, location, maxPmVm, records[m][choice.slot], choice.to)
    {
      choice, minCost := before, costBefore;
      if k != m {
        var v := records[m][slot];
        var tmLoad, tmNet := HostUsage(cl, k);
        var migration := cl.Migration(tmLoad, tmNet, cl.load[v], cl.net[v], maxPmVm, k);
        if migration < inhabitancy / 2.0 {
          if choice.Stay? || migration <= minCost {
            minCost := migration;
            choice := Move(slot, k);
          }
        }
      }
    }

    /** The inner loop of a decision: one VM of PM `m` against all other PMs. */
    method DecideFor(cl: Cluster, m: nat, slot: nat, pmLoad: int, pmNet: real, before: Choice, costBefore: real)
      returns (choice: Choice, minCost: real)
      requires Valid() && cl.Valid(vms) && |cl.cores| == pms && m < pms && slot < |records[m]|
      requires pmLoad == LoadOn(cl, location, m, vms) && pmNet == NetOn(cl, location, m, vms)
      requires forall i :: 0 <= i < |records[m]| ==> records[m][i] < vms && location[records[m][i]] == m
      requires Cheapest(cl, location, maxPmVm, records[m], before, slot, 0)
      requires before.Move? ==> costBefore == MigrationOf(cl, location, maxPmVm, records[m][before.slot], before.to)
      ensures Cheapest(cl, location, maxPmVm, records[m], choice, slot, pms)
      ensures choice.Move? ==> minCost == MigrationOf(cl, location, maxPmVm, records[m][choice.slot], choice.to)
    {
      var rec := records[m];
      var v := rec[slot];
      var inhabitancy := cl.Inhabitancy(pmLoad, pmNet, cl.load[v], cl.net[v], maxPmVm, m);
      choice, minCost := before, costBefore;
      for k := 0 to pms
        invariant Cheapest(cl, location, maxPmVm, rec, choice, slot, k)
        invariant choice.Move? ==> minCost == MigrationOf(cl, location, maxPmVm, rec[choice.slot], choice.to)
      {
        CheapestNext(cl, location, maxPmVm, rec, choice, slot, k);
        choice, minCost := Weigh(cl, m, slot, k, inhabitancy, choice, minCost);
      }
    }

    /** The decision for source PM `m`: among all its VMs and all other PMs. */
    method Decide(cl: Cluster, m: nat) returns (choice: Choice)
      requires Valid() && cl.Valid(vms) && |cl.cores| == pms && m < pms
      ensures forall i :: 0 <= i < |records[m]| ==> records[m][i] < vms && location[records[m][i]] == m
      ensures Cheapest(cl, location, maxPmVm, records[m], choice, |records[m]|, 0)
    {
      var rec := records[m];
      ListedInRange(rec, location, m, vms);
      var pmLoad, pmNet := HostUsage(cl, m);
      var minCost := 0.0;
      choice := Stay;
      for slot := 0 to |rec|
        invariant Cheapest(cl, location, maxPmVm, rec, choice, slot, 0)
        invariant choice.Move? ==> minCost == MigrationOf(cl, location, maxPmVm, rec[choice.slot], choice.to)
      {
        choice, minCost := DecideFor(cl, m, slot, pmLoad, pmNet, choice, minCost);
        CheapestRow(cl, location, maxPmVm, rec, choice, slot);
      }
    }

    static method FindSlot(rec: seq<nat>, v: nat) returns (i: nat)
      ensures i == Find(rec, v)
    {
      i := 0;
      while i < |rec| && rec[i] != v
        invariant i <= |rec| && Find(rec, v) == i + Find(rec[i..], v)
      {
        i := i + 1;
      }
    }

    /** `place_vm`: refused when the target is full; otherwise the VM moves, both records follow, and the scale doubles
        once the target holds that many VMs. */
    method PlaceVm(v: nat, to: nat)
      requires Valid() && v < vms && to < pms && to != location[v]
      modifies this, records
      ensures Valid() && records == old(records)
      ensures |old(records[to])| >= MAX_VM_TO_PM ==>
                Abs() == old(Abs()) && migrationCount == old(migrationCount) && records[..] == old(records[..])
      ensures |old(records[to])| < MAX_VM_TO_PM ==>
                && location == old(location)[v := to] && migrationCount == old(migrationCount) + 1
                && maxPmVm == (if |old(records[to])| + 1 >= old(maxPmVm) then 2 * old(maxPmVm) else old(maxPmVm))
                && records[to] == old(records[to]) + [v]
                && (var from := old(location)[v];
                    records[from] == RemoveSlot(old(records[from]), Find(old(records[from]), v)))
                && forall m :: 0 <= m < pms && m != to && m != old(location)[v] ==> records[m] == old(records[m])
    {
      if |records[to]| >= MAX_VM_TO_PM {
        return;
      }
      var from := location[v];
      ghost var loc := location;
      forall m | 0 <= m < pms ensures
        && (m != to && m != from ==> Lists(records[m], loc[v := to], m))
        && (m == to ==> Lists(records[m] + [v], loc[v := to], m))
      {
        MovedLists(records[m], loc, v, to, m);
      }
      assert v in records[from];
      var rec := records[from];
      location := location[v := to];
      migrationCount := migrationCount + 1;
      records[to] := records[to] + [v];
      var i := FindSlot(rec, v);
      LeftLists(rec, loc, v, to, i);
      records[from] := RemoveSlot(rec, i);
      if |records[to]| >= maxPmVm {
        maxPmVm := 2 * maxPmVm;
      }
    }

    /** What a scan does at PM `m`: decide, then place. If the chosen target is full nothing happens at all, even when
        another acceptable target has room. */
    method Visit(cl: Cluster, m: nat) returns (choice: Choice)
      requires Valid() && cl.Valid(vms) && cl.Monotone() && |cl.cores| == pms && m < pms
      modifies this, records
      ensures Valid() && records == old(records)
      ensures forall i :: 0 <= i < |old(records[m])| ==> old(records[m])[i] < vms
      ensures Cheapest(cl, old(location), old(maxPmVm), old(records[m]), choice, |old(records[m])|, 0)
      ensures choice.Move? && |old(records[choice.to])| < MAX_VM_TO_PM ==>
                && Migrates(cl, old(Abs()), Abs(), old(records[m])[choice.slot], choice.to)
                && migrationCount == old(migrationCount) + 1
      ensures choice.Stay? || |old(records[choice.to])| >= MAX_VM_TO_PM ==>
                Abs() == old(Abs()) && migrationCount == old(migrationCount) && records[..] == old(records[..])
    {
      choice := Decide(cl, m);
      if choice.Move? {
        var v, to := records[m][choice.slot], choice.to;
        assert |records[to]| == CountOn(location, to, vms) by {
          ListedCount(records[to], location, to, vms);
        }
        MoveChangesCount(location, v, to, to, vms);
        PlaceVm(v, to);
      }
    }

    /** The same visit, in terms of steps: it is one step of a run unless the PM is quiet, and then it changes nothing. */
    method VisitStep(cl: Cluster, m: nat)
      requires Valid() && cl.Valid(vms) && cl.Monotone() && |cl.cores| == pms && m < pms
      modifies this, records
      ensures Valid() && records == old(records)
      ensures !Quiet(cl, old(Abs()), old(records[..]), m) ==>
                Step(cl, old(Abs()), Abs()) && migrationCount == old(migrationCount) + 1
      ensures Quiet(cl, old(Abs()), old(records[..]), m) ==>
                Abs() == old(Abs()) && migrationCount == old(migrationCount) && records[..] == old(records[..])
    {
      ghost var p, recs := Abs(), records[..];
      var choice := Visit(cl, m);
      ChoiceIsQuiet(cl, p, recs, m, choice);
      if choice.Move? && |recs[choice.to]| < MAX_VM_TO_PM {
        IsStep(cl, p, Abs(), recs[m][choice.slot], choice.to);
      }
    }

    method VisitOnRun(cl: Cluster, m: nat, ghost before: seq<Placement>) returns (ghost run: seq<Placement>)
      requires Valid() && cl.Valid(vms) && cl.Monotone() && |cl.cores| == pms && m < pms
      requires Run(cl, before) && before[|before| - 1] == Abs()
      modifies this, records
      ensures Valid() && records == old(records)
      ensures Run(cl, run) && run[0] == before[0] && run[|run| - 1] == Abs()
      ensures migrationCount - old(migrationCount) == |run| - |before| >= 0
      ensures |run| == |before| <==> Quiet(cl, old(Abs()), old(records[..]), m)
      ensures |run| == |before| ==> Abs() == old(Abs()) && records[..] == old(records[..])
    {
      run := before;
      ghost var count := migrationCount;
      VisitStep(cl, m);
      if migrationCount > count {
        RunExtends(cl, before, Abs());
        run := before + [Abs()];
      }
    }

    /** One scan from a drawn offset `x`: every PM in turn decides, and its choice is placed. `run` is the run of migrations
        it makes and `examined` the PMs it looks at. It makes none if and only if all PMs are at rest, and then changes nothing. */
    method Scan(cl: Cluster, x: nat) returns (ghost run: seq<Placement>, examined: seq<nat>)
      requires Valid() && cl.Valid(vms) && cl.Monotone() && |cl.cores| == pms && x < pms
      modifies this, records
      ensures Valid() && records == old(records)
      ensures Run(cl, run) && run[0] == old(Abs()) && run[|run| - 1] == Abs()
      ensures migrationCount == old(migrationCount) + |run| - 1
      ensures |examined| == pms && forall z :: 0 <= z < pms ==> examined[z] == Circular(x, z, pms)
      ensures |run| == 1 <==> AtRest(cl, old(Abs()), old(records[..]))
      ensures |run| == 1 ==> Abs() == old(Abs()) && records[..] == old(records[..])
    {
      run, examined := [Abs()], [];
      ghost var p, recs := Abs(), records[..];
      var m, z := x, 0;
      while z < pms
        invariant Valid() && records == old(records) && z <= pms
        invariant m == if x + z <= pms then x + z else x + z - pms
        invariant Run(cl, run) && run[0] == p && run[|run| - 1] == Abs()
        invariant migrationCount == old(migrationCount) + |run| - 1
        invariant |examined| == z && forall y :: 0 <= y < z ==> examined[y] == Circular(x, y, pms)
        invariant |run| == 1 ==> Abs() == p && records[..] == recs
        invariant |run| == 1 ==> forall y :: 0 <= y < z ==> Quiet(cl, p, recs, Circular(x, y, pms))
        invariant AtRest(cl, p, recs) ==> |run| == 1
      {
        if m == pms {
          m := 0;
        }
        examined := examined + [m];
        run := VisitOnRun(cl, m, run);
        m, z := m + 1, z + 1;
      }
      if |run| == 1 {
        AllExamined(cl, p, recs, x);
      }
    }

    /** A scan in terms of the measure: it lowers it by what it migrates, and migrates unless all PMs are at rest. */
    method ScanOnce(cl: Cluster, x: nat) returns (migrated: bool)
      requires Valid() && cl.Valid(vms) && cl.Monotone() && |cl.cores| == pms && x < pms
      modifies this, records
      ensures Valid() && records == old(records)
      ensures migrationCount + Measure(cl, Abs()) <= old(migrationCount) + Measure(cl, old(Abs()))
      ensures migrationCount >= old(migrationCount) && (migrated <==> migrationCount > old(migrationCount))
      ensures migrated <==> !AtRest(cl, old(Abs()), old(records[..]))
      ensures !migrated ==> Abs() == old(Abs()) && records[..] == old(records[..])
    {
      var count := migrationCount;
      ghost var p := Abs();
      ghost var run, _ := Scan(cl, x);
      RunEndsLower(cl, run, p, Abs());
      migrated := migrationCount > count;
    }

    /** `policy_func_inhab_mig`: one scan per drawn offset; `migrated` notes for each whether it made a migration. While the loads do
        not change, all scans together make fewer than 4 * pms^vms migrations, however many there are, and the rebalancer comes to
        rest: exactly the first `busy` scans make any, and these are fewer than 4 * pms^vms, too. */
    method Rebalance(cl: Cluster, draws: seq<nat>) returns (migrated: seq<bool>, ghost busy: nat)
      requires Valid() && cl.Valid(vms) && cl.Monotone() && |cl.cores| == pms
      requires forall i :: 0 <= i < |draws| ==> draws[i] < pms
      requires pms >= 1
      modifies this, records
      ensures Valid() && records == old(records)
      ensures busy <= migrationCount - old(migrationCount) < 4 * Power(pms, vms)
      ensures |migrated| == |draws| && forall i :: 0 <= i < |draws| ==> (migrated[i] <==> i < busy)
      ensures busy < |draws| ==> AtRest(cl, Abs(), records[..])
    {
      MeasureBound(cl, Abs());
      ghost var budget := migrationCount + Measure(cl, Abs());
      migrated, busy := [], 0;
      for i := 0 to |draws|
        invariant Valid() && records == old(records)
        invariant migrationCount + Measure(cl, Abs()) <= budget
        invariant |migrated| == i && forall j :: 0 <= j < i ==> (migrated[j] <==> j < busy)
        invariant busy <= i && busy <= migrationCount - old(migrationCount)
        invariant busy < i ==> AtRest(cl, Abs(), records[..])
      {
        var some := ScanOnce(cl, draws[i]);
        OneMoreNote(migrated, busy, some);
        migrated := migrated + [some];
        busy := if some then busy + 1 else busy;
      }
    }
  }
}
