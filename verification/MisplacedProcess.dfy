/** A run of the program in which the misstated request costs a process its best VM: two VMs on two hosts, no process exits, and
    two of the four processes draw RAND_MAX for `rand_task`, which makes theirs the small net need
    (simgrid/organizer/hpvc.c:87-114, 404-457, 569-671). The program's ratio argument is 0: see NeedsRatioZero. */
module MisplacedProcess {
  import opened Exponential
  import opened GuestBalancer
  import opened MisstatedRequests
  import opened ResourceNeed
  import opened Protocol
  import opened WorkLoop

  /** The VMs as the balancer sees them, the last selection, and the scale. */
  datatype Site = Site(g: Guests, selected: nat, scale: nat) {
    ghost predicate Valid() {
      g.Valid() && scale >= 1 && selected < |g.load|
    }
  }

  /** One process: the balancer answers the request, the process is created and its need reserved. */
  ghost predicate Serves(s: Site, need: Need, s': Site)
    requires s.Valid()
  {
    && Selects(s.g, need.memory, s.scale, s.selected, s'.selected)
    && s'.scale == NextScale(s.scale, s.g.load[s'.selected] + 1)
    && s'.g == s.g.Place(s'.selected, need.memory, need.net)
  }

  /** At the start every VM has its mailbox listener and nothing reserved. */
  function Launched(pow: real -> real): Site {
    Site(Guests(pow, [1, 1], [0.0, 0.0], [0.0, 0.0]), 0, 1)
  }

  /** Two VMs: the one that was not selected last is looked at first. */
  lemma OtherOfTwo(g: Guests, memory: real, scale: nat, selected: nat)
    requires g.Valid() && |g.load| == 2 && scale >= 1 && selected < 2
    requires g.Marginal(1 - selected, memory, memory, scale) <= g.Marginal(selected, memory, memory, scale)
    ensures Selects(g, memory, scale, selected, 1 - selected)
  {
    assert Visited(selected, 0, 2) == 1 - selected && Visited(selected, 1, 2) == selected;
    assert g.Marginals(memory, memory, scale)[1 - selected] <= g.Marginals(memory, memory, scale)[selected];
  }

  /** Powers of two, as far as they are needed. */
  lemma Bounds(pow: real -> real)
    requires PowerOf(pow, 2)
    ensures 1.4 <= pow(0.5) <= 1.42 && 1.18 <= pow(0.25) <= 1.192
    ensures 1.28 <= pow(0.4) <= 1.42 && 1.0 <= pow(0.06) <= 1.045
    ensures 1.0 <= pow(0.001) <= pow(0.008) <= 1.0112
  {
    Root(pow, 2, 0.5, 1.4, 1.42);
    Root(pow, 2, 0.25, 1.18, 1.192);
    Root(pow, 2, 0.125, 1.086, 1.0918);
    Positive(pow, 2, 0.03125);
    Rising(pow, 2, 0.0, 0.015625);
    Rising(pow, 2, 0.015625, 0.03125);
    Rising(pow, 2, 0.03125, 0.0625);
    Rising(pow, 2, 0.0625, 0.125);
    Root(pow, 2, 0.0625, 1.0, 1.045);
    Root(pow, 2, 0.03125, 1.0, 1.0223);
    Root(pow, 2, 0.015625, 1.0, 1.0112);
    Product(pow, 2, 0.25, 0.125);
    Times(1.18, pow(0.25), 1.086, pow(0.125));
    Rising(pow, 2, 0.375, 0.4);
    Rising(pow, 2, 0.4, 0.5);
    Rising(pow, 2, 0.0, 0.06);
    Rising(pow, 2, 0.06, 0.0625);
    Rising(pow, 2, 0.0, 0.001);
    Rising(pow, 2, 0.001, 0.008);
    Rising(pow, 2, 0.008, 0.015625);
  }

  lemma Times(a: real, b: real, c: real, d: real)
    requires 0.0 <= a <= b && 0.0 <= c <= d
    ensures a * c <= b * d
  {
    assert a * c <= b * c by { assert (b - a) * c >= 0.0; }
    assert b * c <= b * d by { assert b * (d - c) >= 0.0; }
  }

  /** What a process costs on the two VMs, with h and q for the load, e for the memory, b and s for the net in use and d for the net
      the process needs. */
  function Near(h: real, q: real, e: real, b: real, d: real): real {
    h * (q - 1.0) + e * (e - 1.0) + b * (d - 1.0)
  }

  function Far(h: real, q: real, e: real, s: real, d: real): real {
    h * q * (q - 1.0) + e * e * (e - 1.0) + s * (d - 1.0)
  }

  lemma Square(x: real, low: real, high: real)
    requires 0.0 <= low <= x <= high
    ensures low * low <= x * x <= high * high
  {
    Times(low, x, low, x);
    Times(x, high, x, high);
  }

  lemma LoadPart(h: real, q: real) returns (x: real)
    requires 1.4 <= h <= 1.42 && 1.18 <= q <= 1.192
    ensures x == h * ((q - 1.0) * (q - 1.0)) && 0.045 <= x <= 0.0524
  {
    var y := (q - 1.0) * (q - 1.0);
    Square(q - 1.0, 0.18, 0.192);
    Times(1.4, h, 0.0324, y);
    Times(h, 1.42, y, 0.036864);
    x := h * y;
  }

  lemma MemoryPart(e: real) returns (x: real)
    requires 1.0 <= e <= 1.0112
    ensures x == e * ((e - 1.0) * (e - 1.0)) && 0.0 <= x <= 0.0002
  {
    var y := (e - 1.0) * (e - 1.0);
    Square(e - 1.0, 0.0, 0.0112);
    Times(0.0, e, 0.0, y);
    Times(e, 1.0112, y, 0.00012544);
    x := e * y;
  }

  lemma Difference(h: real, q: real, e: real, b: real, s: real, d: real)
    ensures Far(h, q, e, s, d) - Near(h, q, e, b, d)
         == h * ((q - 1.0) * (q - 1.0)) + e * ((e - 1.0) * (e - 1.0)) - (b - s) * (d - 1.0)
  {
    assert h * q * (q - 1.0) - h * (q - 1.0) == h * ((q - 1.0) * (q - 1.0));
    assert e * e * (e - 1.0) - e * (e - 1.0) == e * ((e - 1.0) * (e - 1.0));
    assert b * (d - 1.0) - s * (d - 1.0) == (b - s) * (d - 1.0);
  }

  lemma NetPart(b: real, s: real, d: real) returns (x: real)
    requires 1.28 <= b <= 1.42 && 1.0 <= s <= 1.045 && d >= 1.0
    ensures x == (b - s) * (d - 1.0)
    ensures d <= 1.0112 ==> x <= 0.0048
    ensures d >= 1.28 ==> x >= 0.0658
  {
    var y, z := b - s, d - 1.0;
    if d <= 1.0112 { Times(y, 0.42, z, 0.0112); }
    if d >= 1.28 { Times(0.235, y, 0.28, z); }
    x := y * z;
  }

  /** The second VM is dearer by what the load and memory parts say and cheaper by what the net part says. */
  lemma Parts(h: real, q: real, e: real, b: real, s: real, d: real) returns (load: real, memory: real, net: real)
    requires 1.4 <= h <= 1.42 && 1.18 <= q <= 1.192 && 1.0 <= e <= 1.0112 && 1.28 <= b <= 1.42 && 1.0 <= s <= 1.045 && d >= 1.0
    ensures Far(h, q, e, s, d) - Near(h, q, e, b, d) == load + memory - net
    ensures 0.045 <= load <= 0.0524 && 0.0 <= memory <= 0.0002
    ensures (d <= 1.0112 ==> net <= 0.0048) && (d >= 1.28 ==> net >= 0.0658)
  {
    load := LoadPart(h, q);
    memory := MemoryPart(e);
    net := NetPart(b, s, d);
    Difference(h, q, e, b, s, d);
  }

  /** The first VM is cheaper with a net need of d, the second with one of b. */
  lemma Figures(h: real, q: real, e: real, d: real, b: real, s: real)
    requires 1.4 <= h <= 1.42 && 1.18 <= q <= 1.192 && 1.28 <= b <= 1.42 && 1.0 <= s <= 1.045 && 1.0 <= e <= d <= 1.0112
    ensures Near(h, q, e, b, d) <= Far(h, q, e, s, d) && Far(h, q, e, s, b) < Near(h, q, e, b, b)
  {
    var _, _, _ := Parts(h, q, e, b, s, d);
    var _, _, _ := Parts(h, q, e, b, s, b);
  }

  /** The state before the fourth process. */
  function Loaded(pow: real -> real): Guests {
    Guests(pow, [2, 3], [1_000_000.0, 2_000_000.0], [50_000_000.0, 7_500_000.0])
  }

  lemma LoadedParts(pow: real -> real, rn: real)
    ensures Loaded(pow).Marginal(0, 1_000_000.0, rn, 4)
         == Gain(pow, 0.5, 0.25) + Gain(pow, 0.001, 0.001) + Gain(pow, 0.4, rn / MAX_VM_NET)
    ensures Loaded(pow).Marginal(1, 1_000_000.0, rn, 4)
         == Gain(pow, 0.75, 0.25) + Gain(pow, 0.002, 0.001) + Gain(pow, 0.06, rn / MAX_VM_NET)
  {
    MarginalParts(Loaded(pow), 0, 1_000_000.0, rn, 4);
    MarginalParts(Loaded(pow), 1, 1_000_000.0, rn, 4);
  }

  lemma NearMarginal(pow: real -> real, rn: real)
    requires PowerOf(pow, 2)
    ensures Loaded(pow).Marginal(0, 1_000_000.0, rn, 4) == Near(pow(0.5), pow(0.25), pow(0.001), pow(0.4), pow(rn / MAX_VM_NET))
  {
    LoadedParts(pow, rn);
    GainIsProduct(pow, 2, 0.5, 0.25);
    GainIsProduct(pow, 2, 0.001, 0.001);
    GainIsProduct(pow, 2, 0.4, rn / MAX_VM_NET);
  }

  lemma FarMarginal(pow: real -> real, rn: real)
    requires PowerOf(pow, 2)
    ensures Loaded(pow).Marginal(1, 1_000_000.0, rn, 4) == Far(pow(0.5), pow(0.25), pow(0.001), pow(0.06), pow(rn / MAX_VM_NET))
  {
    LoadedParts(pow, rn);
    GainFromSum(pow, 2, 0.5, 0.25, 0.25);
    GainFromSum(pow, 2, 0.001, 0.001, 0.001);
    GainIsProduct(pow, 2, 0.06, rn / MAX_VM_NET);
    FarIsSum(pow(0.5), pow(0.25), pow(0.001), pow(0.06), pow(rn / MAX_VM_NET),
             Gain(pow, 0.75, 0.25), Gain(pow, 0.002, 0.001), Gain(pow, 0.06, rn / MAX_VM_NET));
  }

  lemma FarIsSum(h: real, q: real, e: real, s: real, d: real, load: real, memory: real, net: real)
    requires load == h * q * (q - 1.0) && memory == e * e * (e - 1.0) && net == s * (d - 1.0)
    ensures load + memory + net == Far(h, q, e, s, d)
  {
  }

  /** As asked, VM 0 is the cheaper one; for the process, VM 1 is. */
  lemma LoadedOrder(pow: real -> real)
    requires PowerOf(pow, 2)
    ensures Loaded(pow).Marginal(0, 1_000_000.0, 1_000_000.0, 4) <= Loaded(pow).Marginal(1, 1_000_000.0, 1_000_000.0, 4)
    ensures Loaded(pow).Marginal(1, 1_000_000.0, 50_000_000.0, 4) < Loaded(pow).Marginal(0, 1_000_000.0, 50_000_000.0, 4)
  {
    NearMarginal(pow, 1_000_000.0);
    FarMarginal(pow, 1_000_000.0);
    NearMarginal(pow, 50_000_000.0);
    FarMarginal(pow, 50_000_000.0);
    FiguresOf(pow);
  }

  lemma FiguresOf(pow: real -> real)
    requires PowerOf(pow, 2)
    ensures Near(pow(0.5), pow(0.25), pow(0.001), pow(0.4), pow(0.008)) <= Far(pow(0.5), pow(0.25), pow(0.001), pow(0.06), pow(0.008))
    ensures Far(pow(0.5), pow(0.25), pow(0.001), pow(0.06), pow(0.4)) < Near(pow(0.5), pow(0.25), pow(0.001), pow(0.4), pow(0.4))
  {
    Bounds(pow);
    Figures(pow(0.5), pow(0.25), pow(0.001), pow(0.008), pow(0.4), pow(0.06));
  }

  lemma FourthIsMisplaced(pow: real -> real)
    requires PowerOf(pow, 2)
    ensures Selects(Loaded(pow), 1_000_000.0, 4, 1, 0) && !BestFor(Loaded(pow), 1_000_000.0, 50_000_000.0, 4, 0)
  {
    var g := Loaded(pow);
    LoadedOrder(pow);
    OtherOfTwo(g, 1_000_000.0, 4, 1);
    MarginalIsDifference(g, 0, 1_000_000.0, 50_000_000.0, 4);
    MarginalIsDifference(g, 1, 1_000_000.0, 50_000_000.0, 4);
  }

  /** After the first and after the second process. */
  function AfterOne(pow: real -> real): Site {
    Site(Guests(pow, [1, 2], [0.0, 1_000_000.0], [0.0, 3_750_000.0]), 1, 2)
  }

  function AfterTwo(pow: real -> real): Site {
    Site(Guests(pow, [2, 2], [1_000_000.0, 1_000_000.0], [50_000_000.0, 3_750_000.0]), 0, 4)
  }

  lemma FirstProcess(pow: real -> real)
    requires PowerOf(pow, 2)
    ensures Serves(Launched(pow), Need(1_000_000.0, 3_750_000.0), AfterOne(pow))
  {
    OtherOfTwo(Launched(pow).g, 1_000_000.0, 1, 0);
    assert AfterOne(pow).g == Launched(pow).g.Place(1, 1_000_000.0, 3_750_000.0);
  }

  lemma SecondProcess(pow: real -> real)
    requires PowerOf(pow, 2)
    ensures Serves(AfterOne(pow), Need(1_000_000.0, 50_000_000.0), AfterTwo(pow))
  {
    LessIsCheaper(AfterOne(pow).g, 2, 1_000_000.0, 2, 0, 1);
    OtherOfTwo(AfterOne(pow).g, 1_000_000.0, 2, 1);
    assert AfterTwo(pow).g == AfterOne(pow).g.Place(0, 1_000_000.0, 50_000_000.0);
  }

  lemma ThirdProcess(pow: real -> real)
    requires PowerOf(pow, 2)
    ensures Serves(AfterTwo(pow), Need(1_000_000.0, 3_750_000.0), Site(Loaded(pow), 1, 4))
  {
    LessIsCheaper(AfterTwo(pow).g, 2, 1_000_000.0, 4, 1, 0);
    OtherOfTwo(AfterTwo(pow).g, 1_000_000.0, 4, 0);
    assert Loaded(pow) == AfterTwo(pow).g.Place(1, 1_000_000.0, 3_750_000.0);
  }

  /** Two VMs mean one step for every process, and that loop ends only with a ratio of 0, so the run takes this argument. */
  lemma NeedsRatioZero(w: Params, ratio: real)
    requires FromMain(w, ratio) && w.steps == StepsOf(2)
    ensures (exists k: nat :: EndsWithin(w, k)) <==> ratio == 0.0
  {
    WorkEndsIff(w, ratio);
    assert w.steps == 1 && ratio * 1.0 == ratio;
  }

  /** The run. The first and the third process drew `rare`, the others `usual`. The fourth is placed on VM 0, although it adds less to
      the potential on VM 1. */
  lemma MisplacedRun(pow: real -> real, w: Scale, usual: Draw, rare: Draw) returns (s1: Site, s2: Site, s3: Site, s4: Site)
    requires PowerOf(pow, 2) && w == Scale(0x7fff_ffff, 1_000_000.0, MAX_VM_NET)
    requires Drawn(w, usual) && Drawn(w, rare) && usual.m == rare.m == w.randMax && usual.randTask < rare.randTask == w.randMax
    ensures s1.Valid() && s2.Valid() && s3.Valid()
    ensures Serves(Launched(pow), ComputeNeed(w, rare), s1) && Serves(s1, ComputeNeed(w, usual), s2)
    ensures Serves(s2, ComputeNeed(w, rare), s3) && Serves(s3, ComputeNeed(w, usual), s4)
    ensures s4.selected == 0
    ensures !BestFor(s3.g, ComputeNeed(w, usual).memory, ComputeNeed(w, usual).net, s3.scale, s4.selected)
  {
    assert ComputeNeed(w, usual) == Need(1_000_000.0, 50_000_000.0) && ComputeNeed(w, rare) == Need(1_000_000.0, 3_750_000.0);
    s1, s2, s3 := AfterOne(pow), AfterTwo(pow), Site(Loaded(pow), 1, 4);
    s4 := Site(Loaded(pow).Place(0, 1_000_000.0, 50_000_000.0), 0, 4);
    FirstProcess(pow);
    SecondProcess(pow);
    ThirdProcess(pow);
    FourthIsMisplaced(pow);
  }
}
