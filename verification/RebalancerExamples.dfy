/** Two states of the rebalancer, on 25 hosts of one core each with 50 VMs, and what a scan decides at PM 0 there: one in which the
    bookkeeping as written goes wrong, and one in which a full target wastes the decision. */
module RebalancerExamples {
  import opened Exponential
  import opened VmRecords
  import opened Rebalancing
  import opened Rebalancer
  import opened RebalancerAsWritten

  /** Process counts, the listener included: VM 0 is idle, VM 1 is the busiest. */
  function Load(v: nat): nat {
    if v == 1 then 12
    else if v == 7 || v == 9 || v == 11 then 6
    else if v == 0 || v == 2 || v == 3 || v == 6 || v == 8 || v == 10 then 1
    else 3
  }

  /** `pow` is pow(25, .), and every process needs the same share of the net. */
  function Busy(pow: real -> real, share: real): Cluster {
    Cluster(pow, seq(25, _ => 1), seq(50, v requires 0 <= v < 50 => Load(v)),
            seq(50, v requires 0 <= v < 50 => share * (Load(v) - 1) as real))
  }

  /** Where VMs are launched, and where they are after VMs 6, 8 and 10 have moved to PM 1. */
  function Host(moved: bool, v: nat): nat {
    if moved && (v == 6 || v == 8 || v == 10) then 1 else v / 2
  }

  function Hosts(moved: bool): seq<nat> { seq(50, v requires 0 <= v < 50 => Host(moved, v)) }

  function Record(moved: bool, m: nat): seq<nat> {
    if moved && m == 1 then [2, 3, 6, 8, 10]
    else if moved && 3 <= m <= 5 then [2 * m + 1]
    else [2 * m, 2 * m + 1]
  }

  function Records(moved: bool): seq<seq<nat>> { seq(25, m requires 0 <= m < 25 => Record(moved, m)) }

  /** The scale: 3 after the launch, doubled when PM 1 got its third VM. */
  function ScaleOf(moved: bool): nat { if moved then 6 else 3 }

  function LoadAt(moved: bool, m: nat): nat {
    if m == 0 then 13 else if m == 1 then if moved then 5 else 2 else if 3 <= m <= 5 && !moved then 7 else 6
  }

  lemma RecordLists(moved: bool, m: nat)
    requires m < 25
    ensures Lists(Record(moved, m), Hosts(moved), m) && |Record(moved, m)| <= MAX_VM_TO_PM
  {
    var rec, loc := Record(moved, m), Hosts(moved);
    forall v: nat ensures v in rec <==> v < |loc| && loc[v] == m {
      assert v < 50 ==> loc[v] == Host(moved, v);
      assert !moved ==> (v in rec <==> v == 2 * m || v == 2 * m + 1);
    }
  }

  lemma OneMore(cl: Cluster, rec: seq<nat>, v: nat)
    requires cl.Valid(50) && v < 50 && forall i :: 0 <= i < |rec| ==> rec[i] < 50
    ensures forall i :: 0 <= i < |rec + [v]| ==> (rec + [v])[i] < 50
    ensures RecordLoad(cl, rec + [v]) == RecordLoad(cl, rec) + cl.load[v]
    ensures RecordNet(cl, rec + [v]) == RecordNet(cl, rec) + cl.net[v]
  {
    assert (rec + [v])[..|rec|] == rec;
  }

  lemma TwoUsage(cl: Cluster, v: nat, w: nat)
    requires cl.Valid(50) && v < 50 && w < 50
    ensures RecordLoad(cl, [v, w]) == cl.load[v] + cl.load[w] && RecordNet(cl, [v, w]) == cl.net[v] + cl.net[w]
  {
    OneMore(cl, [], v);
    OneMore(cl, [v], w);
    assert [] + [v] == [v] && [v] + [w] == [v, w];
  }

  lemma FullLoad(cl: Cluster)
    requires cl.Valid(50) && forall v :: 0 <= v < 50 ==> cl.load[v] == Load(v)
    ensures RecordLoad(cl, [2, 3, 6, 8, 10]) == 5
  {
    TwoUsage(cl, 2, 3);
    OneMore(cl, [2, 3], 6);
    OneMore(cl, [2, 3] + [6], 8);
    OneMore(cl, [2, 3] + [6] + [8], 10);
    assert [2, 3] + [6] + [8] + [10] == [2, 3, 6, 8, 10];
  }

  lemma PairLoad(cl: Cluster, moved: bool, m: nat)
    requires cl.Valid(50) && m < 25 && !(moved && (m == 1 || 3 <= m <= 5)) && forall v :: 0 <= v < 50 ==> cl.load[v] == Load(v)
    ensures RecordLoad(cl, [2 * m, 2 * m + 1]) == LoadAt(moved, m)
  {
    TwoUsage(cl, 2 * m, 2 * m + 1);
    assert Load(2 * m) + Load(2 * m + 1) == LoadAt(moved, m);
  }

  lemma SingleLoad(cl: Cluster, m: nat)
    requires cl.Valid(50) && 3 <= m <= 5 && forall v :: 0 <= v < 50 ==> cl.load[v] == Load(v)
    ensures RecordLoad(cl, [2 * m + 1]) == 6
  {
    OneMore(cl, [], 2 * m + 1);
    assert [] + [2 * m + 1] == [2 * m + 1];
  }

  lemma RecordLoadIs(cl: Cluster, moved: bool, m: nat)
    requires cl.Valid(50) && m < 25 && forall v :: 0 <= v < 50 ==> cl.load[v] == Load(v)
    ensures forall i :: 0 <= i < |Record(moved, m)| ==> Record(moved, m)[i] < 50
    ensures RecordLoad(cl, Record(moved, m)) == LoadAt(moved, m)
  {
    if moved && m == 1 {
      FullLoad(cl);
    } else if moved && 3 <= m <= 5 {
      SingleLoad(cl, m);
    } else {
      PairLoad(cl, moved, m);
    }
  }

  lemma {:induction false} RecordNetNonNegative(cl: Cluster, rec: seq<nat>)
    requires cl.Valid(50) && (forall i :: 0 <= i < |rec| ==> rec[i] < 50) && forall v :: 0 <= v < 50 ==> cl.net[v] >= 0.0
    ensures RecordNet(cl, rec) >= 0.0
  {
    if rec != [] { RecordNetNonNegative(cl, rec[..|rec| - 1]); }
  }

  lemma NetOf(pow: real -> real, share: real, v: nat)
    requires share >= 0.0 && v < 50
    ensures Busy(pow, share).net[v] >= 0.0 && (Load(v) == 1 ==> Busy(pow, share).net[v] == 0.0)
  {
    var others := (Load(v) - 1) as real;
    assert share * others >= 0.0 && (others == 0.0 ==> share * others == 0.0);
  }

  /** Loads add up as in LoadAt; what a PM's VMs need of the net is never negative, and on PM 0 it is what VM 1 needs. */
  lemma Usage(pow: real -> real, share: real, moved: bool, m: nat)
    requires share >= 0.0 && m < 25
    ensures Busy(pow, share).Valid(50)
    ensures LoadOn(Busy(pow, share), Hosts(moved), m, 50) == LoadAt(moved, m)
    ensures NetOn(Busy(pow, share), Hosts(moved), m, 50) >= 0.0
    ensures m == 0 ==> NetOn(Busy(pow, share), Hosts(moved), m, 50) == Busy(pow, share).net[1]
  {
    var cl, rec := Busy(pow, share), Record(moved, m);
    RecordLists(moved, m);
    RecordSums(cl, rec, Hosts(moved), m, 50);
    RecordLoadIs(cl, moved, m);
    forall v | 0 <= v < 50 ensures cl.net[v] >= 0.0 { NetOf(pow, share, v); }
    RecordNetNonNegative(cl, rec);
    if m == 0 {
      TwoUsage(cl, 0, 1);
      NetOf(pow, share, 0);
    }
  }

  /** The idle VM 0 is accepted everywhere, the busy VM 1 nowhere, and the cheapest move is to the PM of least load. */
  lemma IdleMoves(cl: Cluster, n: nat, loc: seq<nat>, scale: nat, to: nat)
    requires PowerOf(cl.pow, n) && n >= 3 && scale >= 1 && cl.Valid(|loc|) && ValidLocation(loc, |cl.cores|)
    requires |loc| >= 2 && 1 <= to < |cl.cores|
    requires forall m :: 0 <= m < |cl.cores| ==> cl.cores[m] == 1
    requires loc[0] == loc[1] == 0 && cl.load[0] == 1 && cl.net[0] == 0.0 && cl.load[1] == 12 && cl.net[1] >= 0.0
    requires LoadOn(cl, loc, 0, |loc|) == 13 && NetOn(cl, loc, 0, |loc|) == cl.net[1]
    requires forall k :: 1 <= k < |cl.cores| ==>
      LoadOn(cl, loc, k, |loc|) >= 1 && LoadOn(cl, loc, k, |loc|) + scale <= 12 && NetOn(cl, loc, k, |loc|) >= 0.0
    requires forall k :: 1 <= k < |cl.cores| && k != to ==> LoadOn(cl, loc, to, |loc|) < LoadOn(cl, loc, k, |loc|)
    ensures forall k :: 1 <= k < |cl.cores| ==> Accepted(cl, loc, scale, 0, k)
    ensures Cheapest(cl, loc, scale, [0, 1], Move(0, to), 2, 0)
  {
    forall k | 1 <= k < |cl.cores| ensures Accepted(cl, loc, scale, 0, k) && !Accepted(cl, loc, scale, 1, k) {
      IdleIsAccepted(cl, n, loc, scale, k);
      BusyIsNot(cl, n, loc, scale, k);
    }
    forall k | 1 <= k < |cl.cores| && k != to ensures MigrationOf(cl, loc, scale, 0, to) < MigrationOf(cl, loc, scale, 0, k) {
      LessLoadIsCheaper(cl, n, loc, scale, to, k);
    }
  }

  function Part(l: int, scale: nat): real
    requires scale >= 1
  {
    l as real / scale as real
  }

  lemma PartsAdd(a: int, b: int, scale: nat)
    requires scale >= 1
    ensures Part(a + b, scale) == Part(a, scale) + Part(b, scale)
    ensures b >= 0 ==> Part(b, scale) >= 0.0
    ensures b > 0 ==> Part(b, scale) > 0.0
    ensures b >= scale ==> Part(b, scale) >= 1.0
  {
  }

  /** What moving the idle VM costs, and what it saves. */
  lemma IdleCosts(cl: Cluster, loc: seq<nat>, scale: nat, k: nat)
    requires scale >= 1 && cl.Valid(|loc|) && ValidLocation(loc, |cl.cores|) && |loc| >= 2 && 1 <= k < |cl.cores|
    requires cl.cores[0] == cl.cores[k] == 1 && loc[0] == 0 && cl.load[0] == 1 && cl.net[0] == 0.0
    requires LoadOn(cl, loc, 0, |loc|) == 13
    ensures MigrationOf(cl, loc, scale, 0, k) == Gain(cl.pow, Part(LoadOn(cl, loc, k, |loc|), scale), Part(1, scale))
    ensures InhabitancyOf(cl, loc, scale, 0) == Gain(cl.pow, Part(12, scale), Part(1, scale))
  {
    PartsAdd(LoadOn(cl, loc, k, |loc|), 1, scale);
    PartsAdd(12, 1, scale);
  }

  lemma IdleIsAccepted(cl: Cluster, n: nat, loc: seq<nat>, scale: nat, k: nat)
    requires PowerOf(cl.pow, n) && n >= 3 && scale >= 1 && cl.Valid(|loc|) && ValidLocation(loc, |cl.cores|)
    requires |loc| >= 2 && 1 <= k < |cl.cores|
    requires cl.cores[0] == cl.cores[k] == 1 && loc[0] == 0 && cl.load[0] == 1 && cl.net[0] == 0.0
    requires LoadOn(cl, loc, 0, |loc|) == 13 && LoadOn(cl, loc, k, |loc|) + scale <= 12
    ensures Accepted(cl, loc, scale, 0, k)
  {
    var l := LoadOn(cl, loc, k, |loc|);
    IdleCosts(cl, loc, scale, k);
    PartsAdd(l, 12 - l, scale);
    PartsAdd(0, 1, scale);
    var x, y, d := Part(l, scale), Part(12, scale), Part(1, scale);
    Rising(cl.pow, n, x + 1.0, y);
    Product(cl.pow, n, x, 1.0);
    GainIsProduct(cl.pow, n, x, d);
    GainIsProduct(cl.pow, n, y, d);
    Positive(cl.pow, n, x);
    Rising(cl.pow, n, 0.0, d);
    assert cl.pow(y) >= cl.pow(x) * n as real;
    LessThanHalf(cl.pow(x), cl.pow(y), cl.pow(d) - 1.0, n);
  }

  lemma LessThanHalf(a: real, b: real, c: real, n: nat)
    requires a > 0.0 && c > 0.0 && n >= 3 && b >= a * n as real
    ensures a * c < b * c / 2.0
  {
    assert a * n as real >= 3.0 * a;
    assert (b - 3.0 * a) * c >= 0.0 && a * c > 0.0;
  }

  lemma BusyIsNot(cl: Cluster, n: nat, loc: seq<nat>, scale: nat, k: nat)
    requires PowerOf(cl.pow, n) && scale >= 1 && cl.Valid(|loc|) && ValidLocation(loc, |cl.cores|)
    requires |loc| >= 2 && 1 <= k < |cl.cores|
    requires cl.cores[0] == cl.cores[k] == 1 && loc[1] == 0 && cl.load[1] == 12 && cl.net[1] >= 0.0
    requires LoadOn(cl, loc, 0, |loc|) == 13 && NetOn(cl, loc, 0, |loc|) == cl.net[1]
    requires LoadOn(cl, loc, k, |loc|) >= 1 && NetOn(cl, loc, k, |loc|) >= 0.0
    ensures !Accepted(cl, loc, scale, 1, k)
  {
    var l, net, need := LoadOn(cl, loc, k, |loc|), NetOn(cl, loc, k, |loc|) / MAX_PM_NET, cl.net[1] / MAX_PM_NET;
    PartsAdd(l, 12, scale);
    PartsAdd(1, 12, scale);
    PartsAdd(1, l - 1, scale);
    GainGrows(cl.pow, n, Part(1, scale), Part(l, scale), Part(12, scale));
    GainGrows(cl.pow, n, 0.0, net, need);
    assert MigrationOf(cl, loc, scale, 1, k) == Gain(cl.pow, Part(l, scale), Part(12, scale)) + Gain(cl.pow, net, need);
    assert InhabitancyOf(cl, loc, scale, 1) == Gain(cl.pow, Part(1, scale), Part(12, scale)) + Gain(cl.pow, 0.0, need);
  }

  lemma LessLoadIsCheaper(cl: Cluster, n: nat, loc: seq<nat>, scale: nat, to: nat, k: nat)
    requires PowerOf(cl.pow, n) && scale >= 1 && cl.Valid(|loc|) && ValidLocation(loc, |cl.cores|) && |loc| >= 2
    requires 1 <= to < |cl.cores| && 1 <= k < |cl.cores| && cl.cores[0] == cl.cores[to] == cl.cores[k] == 1
    requires loc[0] == 0 && cl.load[0] == 1 && cl.net[0] == 0.0 && LoadOn(cl, loc, 0, |loc|) == 13
    requires LoadOn(cl, loc, to, |loc|) < LoadOn(cl, loc, k, |loc|)
    ensures MigrationOf(cl, loc, scale, 0, to) < MigrationOf(cl, loc, scale, 0, k)
  {
    var l, l' := LoadOn(cl, loc, to, |loc|), LoadOn(cl, loc, k, |loc|);
    IdleCosts(cl, loc, scale, to);
    IdleCosts(cl, loc, scale, k);
    PartsAdd(l, l' - l, scale);
    PartsAdd(0, 1, scale);
    GainGrows(cl.pow, n, Part(l, scale), Part(l', scale), Part(1, scale));
  }

  /** Of two PMs with the same load and cores, the one with less net in use is cheaper for a VM that uses any, and it is the dearer
      one for no VM. */
  lemma LessNetIsCheaper(cl: Cluster, n: nat, loc: seq<nat>, scale: nat, v: nat, to: nat, k: nat)
    requires PowerOf(cl.pow, n) && scale >= 1 && cl.Valid(|loc|) && ValidLocation(loc, |cl.cores|) && v < |loc|
    requires to < |cl.cores| && k < |cl.cores| && cl.cores[to] == cl.cores[k] && cl.net[v] >= 0.0
    requires LoadOn(cl, loc, to, |loc|) == LoadOn(cl, loc, k, |loc|) && NetOn(cl, loc, to, |loc|) < NetOn(cl, loc, k, |loc|)
    ensures MigrationOf(cl, loc, scale, v, to) <= MigrationOf(cl, loc, scale, v, k)
    ensures cl.net[v] > 0.0 ==> MigrationOf(cl, loc, scale, v, to) < MigrationOf(cl, loc, scale, v, k)
  {
    CostsInNumbers(cl, loc, scale, v, to);
    CostsInNumbers(cl, loc, scale, v, k);
    GainGrows(cl.pow, n, NetOn(cl, loc, to, |loc|) / 125_000_000.0, NetOn(cl, loc, k, |loc|) / 125_000_000.0,
              cl.net[v] / 125_000_000.0);
  }

  lemma StateIsValid(pow: real -> real, share: real, moved: bool)
    requires PowerOf(pow, 25) && share >= 0.0
    ensures Busy(pow, share).Valid(50) && ValidLocation(Hosts(moved), 25)
    ensures forall m :: 0 <= m < 25 ==> Lists(Records(moved)[m], Hosts(moved), m) && |Records(moved)[m]| <= MAX_VM_TO_PM
  {
    forall m | 0 <= m < 25 ensures Lists(Records(moved)[m], Hosts(moved), m) && |Records(moved)[m]| <= MAX_VM_TO_PM {
      RecordLists(moved, m);
    }
  }

  /** In both states a scan decides to move VM 0 to PM 1, and every other PM would be acceptable, too. */
  lemma Decision(pow: real -> real, share: real, moved: bool)
    requires PowerOf(pow, 25) && share >= 0.0
    ensures Busy(pow, share).Valid(50) && ValidLocation(Hosts(moved), 25)
    ensures Cheapest(Busy(pow, share), Hosts(moved), ScaleOf(moved), Record(moved, 0), Move(0, 1), 2, 0)
    ensures forall k :: 1 <= k < 25 ==> Accepted(Busy(pow, share), Hosts(moved), ScaleOf(moved), 0, k)
  {
    var cl, loc := Busy(pow, share), Hosts(moved);
    StateIsValid(pow, share, moved);
    NetOf(pow, share, 0);
    NetOf(pow, share, 1);
    forall k | 0 <= k < 25 ensures LoadOn(cl, loc, k, 50) == LoadAt(moved, k) && NetOn(cl, loc, k, 50) >= 0.0 {
      Usage(pow, share, moved, k);
    }
    Usage(pow, share, moved, 0);
    IdleMoves(cl, 25, loc, ScaleOf(moved), 1);
  }

  /** After the launch: PM 1 has room, VM 0 is placed there, and with the bookkeeping as written the records no longer describe
      where the VMs run. */
  lemma WrittenPlaceVmFails(pow: real -> real, share: real)
    requires PowerOf(pow, 25) && share >= 0.0
    ensures Busy(pow, share).Valid(50) && ValidLocation(Hosts(false), 25)
    ensures Cheapest(Busy(pow, share), Hosts(false), ScaleOf(false), Records(false)[0], Move(0, 1), 2, 0)
    ensures Records(false)[0][0] == 0 && |Records(false)[1]| < MAX_VM_TO_PM
    ensures forall m :: 0 <= m < 25 ==> Lists(Records(false)[m], Hosts(false), m)
    ensures !forall m :: 0 <= m < 25 ==> Lists(WrittenRecords(Records(false), Hosts(false), 0, 1, 0)[m], Hosts(false)[0 := 1], m)
  {
    StateIsValid(pow, share, false);
    Decision(pow, share, false);
    WrittenPlaceVm(Records(false), Hosts(false), 0, 1, 0);
  }

  /** After the three moves: the decision is for PM 1, which is full, so nothing happens at PM 0, although VM 0 would also be accepted
      on PM 2, which has room. */
  lemma FullTargetWastes(pow: real -> real, share: real)
    requires PowerOf(pow, 25) && share >= 0.0
    ensures Busy(pow, share).Valid(50) && ValidLocation(Hosts(true), 25)
    ensures forall m :: 0 <= m < 25 ==> Lists(Records(true)[m], Hosts(true), m) && |Records(true)[m]| <= MAX_VM_TO_PM
    ensures forall choice ::
              Cheapest(Busy(pow, share), Hosts(true), ScaleOf(true), Records(true)[0], choice, 2, 0) <==> choice == Move(0, 1)
    ensures |Records(true)[1]| == MAX_VM_TO_PM
    ensures Accepted(Busy(pow, share), Hosts(true), ScaleOf(true), 0, 2) && |Records(true)[2]| < MAX_VM_TO_PM
  {
    var cl := Busy(pow, share);
    StateIsValid(pow, share, true);
    Decision(pow, share, true);
    forall choice | Cheapest(cl, Hosts(true), ScaleOf(true), Records(true)[0], choice, 2, 0) ensures choice == Move(0, 1) {
      CheapestUnique(cl, Hosts(true), ScaleOf(true), Records(true)[0], choice, Move(0, 1), 2, 0);
    }
  }
}
