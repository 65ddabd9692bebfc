/** The organizer's table of PM records (simgrid/organizer/structures.h, hpvc.c): how it is launched and how a VM is moved in it. */
module PmTable {
  import opened Arithmetic
  import opened VmRecords

  const PM_CAPACITY: nat := 5

  /** A PM's name; host names are distinct, so a name is its host's index. Records start out as zeroed memory. */
  datatype Name = NoName | HostName(host: nat)

  datatype PmData = PmData(name: Name, numberOfVMs: nat, slots: seq<nat>) {
    ghost predicate Valid() {
      numberOfVMs <= PM_CAPACITY == |slots|
    }

    ghost function Used(): seq<nat>
      requires Valid()
    {
      slots[..numberOfVMs]
    }
  }

  const ZEROED := PmData(NoName, 0, [0, 0, 0, 0, 0])

  /** Drop the item at `index` by shifting the rest of the first `size` items one to the left. */
  method RemoveItemFromArray(index: nat, a: array<nat>, size: nat)
    requires size <= a.Length
    modifies a
    ensures index >= size ==> a[..] == old(a[..])
    ensures index < size ==> forall j :: 0 <= j < size - 1 ==> a[j] == old(a[if j < index then j else j + 1])
    ensures index < size ==> a[..size - 1] == RemoveSlot(old(a[..size]), index) && a[size - 1..] == old(a[size - 1..])
  {
    if index >= size {
      return;
    }
    for i := index to size - 1
      invariant forall j :: 0 <= j < a.Length ==> a[j] == if index <= j < i then old(a[j + 1]) else old(a[j])
    {
      a[i] := a[i + 1];
    }
    ghost var left := RemoveSlot(old(a[..size]), index);
    assert |left| == size - 1 && forall j :: 0 <= j < size - 1 ==> a[j] == left[j];
  }

  /** The records describe where the VMs run: every VM is in one used slot, once, and it is a slot of the PM it runs on. */
  ghost predicate Partition(records: seq<PmData>, runsOn: seq<nat>) {
    && ValidLocation(runsOn, |records|)
    && forall m :: 0 <= m < |records| ==>
         records[m].Valid() && records[m].name == HostName(m) && Lists(records[m].Used(), runsOn, m)
  }

  ghost function Total(records: seq<PmData>): nat {
    if records == [] then 0 else Total(records[..|records| - 1]) + records[|records| - 1].numberOfVMs
  }

  lemma {:induction false} TotalIsCountAll(records: seq<PmData>, runsOn: seq<nat>, n: nat)
    requires n <= |records| && Partition(records, runsOn)
    ensures Total(records[..n]) == CountAll(runsOn, n, |runsOn|)
  {
    if n > 0 {
      TotalIsCountAll(records, runsOn, n - 1);
      assert records[..n][..n - 1] == records[..n - 1];
      ListedCount(records[n - 1].Used(), runsOn, n - 1, |runsOn|);
    }
  }

  /** Used slot `s` of record `m` holds VM `v`. */
  predicate Holds(records: seq<PmData>, m: nat, s: nat, v: nat) {
    m < |records| && s < records[m].numberOfVMs && s < |records[m].slots| && records[m].slots[s] == v
  }

  /** What the partition gives: each VM is in exactly one used slot of the whole table, and that slot is in the record of the
      PM it runs on. */
  lemma HeldOnce(records: seq<PmData>, runsOn: seq<nat>, v: nat, m: nat, s: nat)
    requires Partition(records, runsOn) && v < |runsOn|
    ensures Holds(records, m, s, v) <==> m == runsOn[v] && s == Find(records[runsOn[v]].Used(), v)
  {
    var home := records[runsOn[v]].Used();
    assert v in home;
    if Holds(records, m, s, v) {
      assert records[m].Used()[s] == v;
      assert v in records[m].Used();
    }
  }

  lemma CountsAddUp(records: seq<PmData>, runsOn: seq<nat>)
    requires Partition(records, runsOn)
    ensures Total(records) == |runsOn|
  {
    TotalIsCountAll(records, runsOn, |records|);
    assert records[..|records|] == records;
    CountAllIsAll(runsOn, |records|, |runsOn|);
  }

  class Table {
    const hosts: nat
    const vms: nat
    /** One record per PM. */
    var dataOfPMs: array<PmData>
    /** The PM each VM runs on, as the simulator reports it. */
    var runsOn: seq<nat>

    ghost predicate Valid()
      reads this, dataOfPMs
    {
      dataOfPMs.Length == hosts && |runsOn| == vms && Partition(dataOfPMs[..], runsOn)
    }

    /** `launch_master`: VMs are created PM by PM, `vms / hosts` on each. The code needs the VM count to be a positive multiple
        of the host count, with no more than PM_CAPACITY each. */
    constructor (hosts: nat, vms: nat)
      requires hosts >= 1 && vms >= hosts && vms % hosts == 0 && vms / hosts <= PM_CAPACITY
      ensures Valid() && fresh(dataOfPMs) && this.hosts == hosts && this.vms == vms
      ensures Evenly(runsOn, vms / hosts)
    {
      this.hosts, this.vms := hosts, vms;
      dataOfPMs := new PmData[hosts](_ => ZEROED);
      runsOn := [];
      new;
      CreateVms(vms / hosts);
    }

    /** The creation loop: VMs in order, `perHost` on each host. */
    method CreateVms(perHost: nat)
      requires hosts >= 1 && vms == hosts * perHost && 1 <= perHost <= PM_CAPACITY
      requires dataOfPMs.Length == hosts && runsOn == [] && forall m :: 0 <= m < hosts ==> dataOfPMs[m] == ZEROED
      modifies this`runsOn, dataOfPMs
      ensures Valid() && Evenly(runsOn, perHost)
    {
      var j, host := 0, 0;
      for i := 0 to vms
        invariant dataOfPMs.Length == hosts && |runsOn| == i
        invariant j <= perHost && i == host * perHost + j && host < hosts
        invariant Evenly(runsOn, perHost) && forall v :: 0 <= v < i ==> runsOn[v] <= host
        invariant Launching(dataOfPMs[..], runsOn, host, j)
      {
        RowFits(i, host, j, perHost, hosts);
        if j >= perHost {
          host := host + 1;
          j := 0;
        }
        EvenlyStep(runsOn, perHost, host);
        CreateVm(i, host, j);
        j := j + 1;
      }
      LastRow(host, j, perHost, hosts);
      assert Partition(dataOfPMs[..], runsOn) by { LaunchDone(dataOfPMs[..], runsOn, host, j); }
    }

    /** Create VM `i` on `host` and note it in that host's record. */
    method CreateVm(i: nat, host: nat, ghost j: nat)
      requires dataOfPMs.Length == hosts && Launching(dataOfPMs[..], runsOn, host, j) && j < PM_CAPACITY && i == |runsOn|
      modifies this`runsOn, dataOfPMs
      ensures Launching(dataOfPMs[..], runsOn, host, j + 1) && runsOn == old(runsOn) + [host]
    {
      LaunchStep(dataOfPMs[..], runsOn, host, j);
      runsOn := runsOn + [host];
      var data := dataOfPMs[host];
      data := data.(slots := data.slots[data.numberOfVMs := i]);
      data := data.(numberOfVMs := data.numberOfVMs + 1, name := HostName(host));
      dataOfPMs[host] := data;
      assert dataOfPMs[..] == old(dataOfPMs[..])[host := Launched(old(dataOfPMs[host]), host, i)];
    }

    /** The inner loop of `migrate_vm`: take VM `v` out of the record at `i`, which is copied, shifted and stored back. */
    method TakeOut(i: nat, v: nat)
      requires Valid() && i < hosts && v in dataOfPMs[i].Used()
      modifies dataOfPMs
      ensures dataOfPMs[i].Valid() && dataOfPMs[i].name == old(dataOfPMs[i].name)
      ensures dataOfPMs[i].Used() == RemoveSlot(old(dataOfPMs[i].Used()), Find(old(dataOfPMs[i].Used()), v))
      ensures forall m :: 0 <= m < hosts && m != i ==> dataOfPMs[m] == old(dataOfPMs[m])
    {
      var data := dataOfPMs[i];
      ghost var used := data.Used();
      var j := 0;
      while j < data.numberOfVMs && data.slots[j] != v
        invariant j <= Find(used, v) && dataOfPMs[..] == old(dataOfPMs[..])
      {
        FindAfter(used, v, j);
        j := j + 1;
      }
      FindReached(used, v, j);
      var copy := new nat[|data.slots|](s requires 0 <= s < |data.slots| => data.slots[s]);
      assert copy[..] == data.slots && copy[..data.numberOfVMs] == used;
      RemoveItemFromArray(j, copy, data.numberOfVMs);
      data := data.(slots := copy[..], numberOfVMs := data.numberOfVMs - 1);
      dataOfPMs[i] := data;
      assert data.Used() == copy[..data.numberOfVMs];
    }

    method Append(target: nat, v: nat)
      requires dataOfPMs.Length == hosts && target < hosts
      requires dataOfPMs[target].Valid() && dataOfPMs[target].numberOfVMs < PM_CAPACITY
      modifies dataOfPMs
      ensures dataOfPMs[target].Valid() && dataOfPMs[target].name == old(dataOfPMs[target].name)
      ensures dataOfPMs[target].Used() == old(dataOfPMs[target].Used()) + [v]
      ensures forall m :: 0 <= m < hosts && m != target ==> dataOfPMs[m] == old(dataOfPMs[m])
    {
      var data := dataOfPMs[target];
      data := data.(slots := data.slots[data.numberOfVMs := v]);
      data := data.(numberOfVMs := data.numberOfVMs + 1);
      dataOfPMs[target] := data;
    }

    /** `migrate_vm`: look the home record up by name, take the VM out, append it to the target record. Source and target may
        be the same record. The caller has checked that the target has a free slot. */
    method MigrateVm(v: nat, target: nat)
      requires Valid() && v < vms && target < hosts && dataOfPMs[target].numberOfVMs < PM_CAPACITY
      modifies this`runsOn, dataOfPMs
      ensures Valid() && runsOn == old(runsOn)[v := target]
      ensures var home := old(runsOn)[v];
        var left := RemoveSlot(old(dataOfPMs[home].Used()), Find(old(dataOfPMs[home].Used()), v));
        && dataOfPMs[target].Used() == (if target == home then left else old(dataOfPMs[target].Used())) + [v]
        && (target != home ==> dataOfPMs[home].Used() == left)
      ensures forall m :: 0 <= m < hosts && m != target && m != old(runsOn)[v] ==> dataOfPMs[m] == old(dataOfPMs[m])
    {
      var hostPM := runsOn[v];
      ghost var records := dataOfPMs[..];
      assert v in records[hostPM].Used();
      var i := 0;
      while i < hosts && dataOfPMs[i].name != HostName(hostPM)
        invariant i <= hostPM
      {
        i := i + 1;
      }
      TakeOut(i, v);
      Append(target, v);
      runsOn := runsOn[v := target];
      MigratedPartition(records, dataOfPMs[..], old(runsOn), v, target);
    }
  }

  lemma FindReached(rec: seq<nat>, v: nat, j: nat)
    requires j <= Find(rec, v) < |rec| && rec[j] == v
    ensures j == Find(rec, v)
  {
    var i := Find(rec, v);
    forall q | 0 <= q < i ensures rec[q] != v {
      assert rec[..i][q] == rec[q];
    }
  }

  lemma FindAfter(rec: seq<nat>, v: nat, j: nat)
    requires j < |rec| && rec[j] != v && j <= Find(rec, v) < |rec|
    ensures j < Find(rec, v)
  {
  }

  lemma MigratedPartition(before: seq<PmData>, after: seq<PmData>, runsOn: seq<nat>, v: nat, target: nat)
    requires Partition(before, runsOn) && v < |runsOn| && target < |before| == |after|
    requires forall m :: 0 <= m < |after| ==> after[m].Valid() && after[m].name == before[m].name
    requires var home := runsOn[v];
      var left := RemoveSlot(before[home].Used(), Find(before[home].Used(), v));
      && after[target].Used() == (if target == home then left else before[target].Used()) + [v]
      && (target != home ==> after[home].Used() == left)
    requires forall m :: 0 <= m < |after| && m != target && m != runsOn[v] ==> after[m] == before[m]
    ensures Partition(after, runsOn[v := target])
  {
    var home := runsOn[v];
    var used := before[home].Used();
    assert v in used;
    if target == home {
      ReturnedLists(used, runsOn, home, Find(used, v));
      assert runsOn[v := target] == runsOn;
    } else {
      LeftLists(used, runsOn, v, target, Find(used, v));
      forall m | 0 <= m < |after| && m != home ensures Lists(after[m].Used(), runsOn[v := target], m) {
        MovedLists(before[m].Used(), runsOn, v, target, m);
      }
    }
  }

  lemma LaunchDone(records: seq<PmData>, runsOn: seq<nat>, host: nat, j: nat)
    requires Launching(records, runsOn, host, j) && host == |records| - 1 && j > 0
    requires forall v :: 0 <= v < |runsOn| ==> runsOn[v] <= host
    ensures Partition(records, runsOn)
  {
  }

  /** VM `v` was created on PM v / perHost. */
  ghost predicate Evenly(runsOn: seq<nat>, perHost: nat)
    requires perHost >= 1
  {
    forall v :: 0 <= v < |runsOn| ==> runsOn[v] == v / perHost
  }

  lemma EvenlyStep(runsOn: seq<nat>, perHost: nat, host: nat)
    requires perHost >= 1 && Evenly(runsOn, perHost) && |runsOn| / perHost == host
    ensures Evenly(runsOn + [host], perHost)
  {
  }

  function Launched(d: PmData, host: nat, v: nat): PmData
    requires d.numberOfVMs < |d.slots|
  {
    PmData(HostName(host), d.numberOfVMs + 1, d.slots[d.numberOfVMs := v])
  }

  /** Half way through the launch: `j` VMs are on `host`, no VM is beyond it, and the records describe those there are. */
  ghost predicate Launching(records: seq<PmData>, runsOn: seq<nat>, host: nat, j: nat) {
    && host < |records| && records[host].numberOfVMs == j
    && (forall m :: 0 <= m < |records| ==> Filled(records[m], m, runsOn))
    && (forall m :: 0 <= m < host || (m == host && j > 0) ==> records[m].name == HostName(m))
    && (forall m :: host < m < |records| ==> records[m].numberOfVMs == 0)
  }

  lemma LaunchStep(records: seq<PmData>, runsOn: seq<nat>, host: nat, j: nat)
    requires Launching(records, runsOn, host, j) && j < PM_CAPACITY
    ensures Launching(records[host := Launched(records[host], host, |runsOn|)], runsOn + [host], host, j + 1)
  {
    forall m | 0 <= m < |records| ensures
      Filled(if m == host then Launched(records[host], host, |runsOn|) else records[m], m, runsOn + [host])
    {
      OneMoreVm(records[m], m, runsOn, host);
    }
  }

  ghost predicate Filled(d: PmData, m: nat, runsOn: seq<nat>) {
    d.Valid() && Lists(d.Used(), runsOn, m)
  }

  lemma OneMoreVm(d: PmData, m: nat, runsOn: seq<nat>, host: nat)
    requires Filled(d, m, runsOn) && (m == host ==> d.numberOfVMs < PM_CAPACITY)
    ensures m != host ==> Filled(d, m, runsOn + [host])
    ensures m == host ==>
              Filled(Launched(d, m, |runsOn|), m, runsOn + [host])
  {
    if m == host {
      var d' := Launched(d, m, |runsOn|);
      ListedInRange(d.Used(), runsOn, m, |runsOn|);
      assert d'.Used() == d.Used() + [|runsOn|];
      assert forall w: nat :: w in d'.Used() <==> w in d.Used() || w == |runsOn|;
    }
  }

  lemma RowFits(i: nat, host: nat, j: nat, perHost: nat, hosts: nat)
    requires perHost >= 1 && j <= perHost && i == host * perHost + j && host < hosts && i < hosts * perHost
    ensures j == perHost ==> host + 1 < hosts && i == (host + 1) * perHost && i / perHost == host + 1
    ensures j < perHost ==> i / perHost == host
  {
    if j == perHost {
      assert i == (host + 1) * perHost;
      DivIs(host + 1, 0, perHost);
    } else {
      DivIs(host, j, perHost);
    }
  }

  lemma LastRow(host: nat, j: nat, perHost: nat, hosts: nat)
    requires perHost >= 1 && j <= perHost && host < hosts && host * perHost + j == hosts * perHost
    ensures host == hosts - 1 && j == perHost
  {
    if host + 1 < hosts {
      ProductMonotone(host + 2, hosts, perHost);
    }
  }
}
