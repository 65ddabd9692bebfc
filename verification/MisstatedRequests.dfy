/** What it does to a selection that the request carries the memory need in place of the net need
    (simgrid/organizer/hpvc.c:594-595), while the reservation afterwards uses the net need (lines 665-671). */
module MisstatedRequests {
  import opened Exponential
  import opened GuestBalancer

  function NetWeight(g: Guests, v: nat): real
    requires g.Valid() && v < |g.load|
  {
    g.pow(g.net[v] / MAX_VM_NET)
  }

  /** What the request does not say, per unit of net weight. */
  function Unsaid(g: Guests, memory: real, net: real): real {
    g.pow(net / MAX_VM_NET) - g.pow(memory / MAX_VM_NET)
  }

  /** The process really adds what the balancer saw, plus what was not said, weighted with the net reserved on the VM. */
  lemma TrueMarginal(g: Guests, n: nat, v: nat, memory: real, net: real, scale: nat)
    requires g.Valid() && PowerOf(g.pow, n) && v < |g.load| && scale >= 1
    ensures g.Marginal(v, memory, net, scale) == g.Marginal(v, memory, memory, scale) + NetWeight(g, v) * Unsaid(g, memory, net)
  {
    var x, a, b := g.net[v] / MAX_VM_NET, memory / MAX_VM_NET, net / MAX_VM_NET;
    assert (g.net[v] + memory) / MAX_VM_NET == x + a && (g.net[v] + net) / MAX_VM_NET == x + b;
    Product(g.pow, n, x, a);
    Product(g.pow, n, x, b);
  }

  /** The process adds no less to the total potential on any other VM. */
  ghost predicate BestFor(g: Guests, memory: real, net: real, scale: nat, home: nat)
    requires g.Valid() && scale >= 1 && home < |g.load|
  {
    forall other :: 0 <= other < |g.load| ==>
      g.Place(home, memory, net).Potential(scale) <= g.Place(other, memory, net).Potential(scale)
  }

  /** `other` loses to `home` by the balancer's own figures. */
  ghost predicate Outweighed(g: Guests, memory: real, net: real, scale: nat, home: nat, other: nat)
    requires g.Valid() && scale >= 1 && home < |g.load| && other < |g.load|
  {
    (NetWeight(g, home) - NetWeight(g, other)) * Unsaid(g, memory, net)
    <= g.Marginal(other, memory, memory, scale) - g.Marginal(home, memory, memory, scale)
  }

  lemma PlacedTotal(g: Guests, n: nat, v: nat, memory: real, net: real, scale: nat)
    requires g.Valid() && PowerOf(g.pow, n) && v < |g.load| && scale >= 1
    ensures g.Place(v, memory, net).Potential(scale)
         == g.Potential(scale) + (g.Marginal(v, memory, memory, scale) + NetWeight(g, v) * Unsaid(g, memory, net))
  {
    MarginalIsDifference(g, v, memory, net, scale);
    TrueMarginal(g, n, v, memory, net, scale);
  }

  lemma BetterIff(g: Guests, n: nat, memory: real, net: real, scale: nat, home: nat, other: nat)
    requires g.Valid() && PowerOf(g.pow, n) && scale >= 1 && home < |g.load| && other < |g.load|
    ensures g.Place(home, memory, net).Potential(scale) <= g.Place(other, memory, net).Potential(scale)
       <==> Outweighed(g, memory, net, scale, home, other)
  {
    PlacedTotal(g, n, home, memory, net, scale);
    PlacedTotal(g, n, other, memory, net, scale);
    Compare(g, memory, net, scale, home, other, g.Place(home, memory, net).Potential(scale),
            g.Place(other, memory, net).Potential(scale));
  }

  lemma Compare(g: Guests, memory: real, net: real, scale: nat, home: nat, other: nat, total: real, total': real)
    requires g.Valid() && scale >= 1 && home < |g.load| && other < |g.load|
    requires total == g.Potential(scale) + (g.Marginal(home, memory, memory, scale) + NetWeight(g, home) * Unsaid(g, memory, net))
    requires total' == g.Potential(scale) + (g.Marginal(other, memory, memory, scale) + NetWeight(g, other) * Unsaid(g, memory, net))
    ensures total <= total' <==> Outweighed(g, memory, net, scale, home, other)
  {
    Distribute(NetWeight(g, home), NetWeight(g, other), Unsaid(g, memory, net));
  }

  lemma Distribute(a: real, b: real, c: real)
    ensures (a - b) * c == a * c - b * c
  {
  }

  /** For one request, exactly: the VM is the best one for the process if and only if against every other VM its lead in the
      balancer's figures covers what the difference in reserved net makes of the part not said. */
  lemma BestForProcessIff(g: Guests, n: nat, memory: real, net: real, scale: nat, home: nat)
    requires g.Valid() && PowerOf(g.pow, n) && scale >= 1 && home < |g.load|
    ensures BestFor(g, memory, net, scale, home)
       <==> forall other :: 0 <= other < |g.load| ==> Outweighed(g, memory, net, scale, home, other)
  {
    forall other | 0 <= other < |g.load|
      ensures g.Place(home, memory, net).Potential(scale) <= g.Place(other, memory, net).Potential(scale)
         <==> Outweighed(g, memory, net, scale, home, other)
    {
      BetterIff(g, n, memory, net, scale, home, other);
    }
  }

  /** The VM a request for `memory` is answered with. */
  ghost predicate Selects(g: Guests, memory: real, scale: nat, selected: nat, home: nat)
    requires g.Valid() && scale >= 1
  {
    selected < |g.load| && home < |g.load| && FirstCheapest(g.Marginals(memory, memory, scale), selected, |g.load|, home)
  }

  lemma SelectedIsLeast(g: Guests, memory: real, scale: nat, selected: nat, home: nat, other: nat)
    requires g.Valid() && scale >= 1 && Selects(g, memory, scale, selected, home) && other < |g.load|
    ensures g.Marginal(home, memory, memory, scale) <= g.Marginal(other, memory, memory, scale)
  {
    EveryVmOnce(selected, |g.load|, other);
    assert g.Marginals(memory, memory, scale)[home] <= g.Marginals(memory, memory, scale)[other];
  }

  ghost predicate LeastNet(g: Guests, home: nat)
    requires g.Valid() && home < |g.load|
  {
    forall other :: 0 <= other < |g.load| ==> g.net[home] <= g.net[other]
  }

  /** The lead stands if what is not said does not favour the other VM. */
  lemma NotFavoured(g: Guests, memory: real, net: real, scale: nat, home: nat, other: nat)
    requires g.Valid() && scale >= 1 && home < |g.load| && other < |g.load|
    requires g.Marginal(home, memory, memory, scale) <= g.Marginal(other, memory, memory, scale)
    requires (NetWeight(g, home) <= NetWeight(g, other) && Unsaid(g, memory, net) >= 0.0)
          || (NetWeight(g, home) >= NetWeight(g, other) && Unsaid(g, memory, net) <= 0.0)
    ensures Outweighed(g, memory, net, scale, home, other)
  {
    NotPositive(NetWeight(g, home) - NetWeight(g, other), Unsaid(g, memory, net));
  }

  lemma LeastNetIsBest(g: Guests, n: nat, memory: real, net: real, scale: nat, selected: nat, home: nat)
    requires g.Valid() && PowerOf(g.pow, n) && scale >= 1 && Selects(g, memory, scale, selected, home)
    requires LeastNet(g, home) && net >= memory
    ensures BestFor(g, memory, net, scale, home)
  {
    forall other | 0 <= other < |g.load| ensures Outweighed(g, memory, net, scale, home, other) {
      SelectedIsLeast(g, memory, scale, selected, home, other);
      Rising(g.pow, n, g.net[home] / MAX_VM_NET, g.net[other] / MAX_VM_NET);
      Rising(g.pow, n, memory / MAX_VM_NET, net / MAX_VM_NET);
      NotFavoured(g, memory, net, scale, home, other);
    }
    BestForProcessIff(g, n, memory, net, scale, home);
  }

  lemma NotPositive(a: real, b: real)
    requires (a <= 0.0 && b >= 0.0) || (a >= 0.0 && b <= 0.0)
    ensures a * b <= 0.0
  {
  }

  /** The mirror image: a smaller net need than the request says favours VMs with more net reserved. */
  lemma MostNetIsBest(g: Guests, n: nat, memory: real, net: real, scale: nat, selected: nat, home: nat)
    requires g.Valid() && PowerOf(g.pow, n) && scale >= 1 && Selects(g, memory, scale, selected, home)
    requires net <= memory && forall other :: 0 <= other < |g.load| ==> g.net[other] <= g.net[home]
    ensures BestFor(g, memory, net, scale, home)
  {
    forall other | 0 <= other < |g.load| ensures Outweighed(g, memory, net, scale, home, other) {
      SelectedIsLeast(g, memory, scale, selected, home, other);
      Rising(g.pow, n, g.net[other] / MAX_VM_NET, g.net[home] / MAX_VM_NET);
      Rising(g.pow, n, net / MAX_VM_NET, memory / MAX_VM_NET);
      NotFavoured(g, memory, net, scale, home, other);
    }
    BestForProcessIff(g, n, memory, net, scale, home);
  }

  /** A net need so large that it outdoes a lead if it counts with some weight. */
  lemma LargeNet(pow: real -> real, n: nat, memory: real, lead: real, weight: real) returns (net: real)
    requires PowerOf(pow, n) && weight > 0.0
    ensures net >= memory && net >= 0.0 && weight * (pow(net / MAX_VM_NET) - pow(memory / MAX_VM_NET)) > lead
  {
    var said := pow(memory / MAX_VM_NET);
    var k := Above(lead / weight + said, memory / MAX_VM_NET);
    Unbounded(pow, n, k);
    net := k as real * MAX_VM_NET;
    assert net / MAX_VM_NET == k as real;
    Exceeds(lead, weight, pow(k as real) - said);
  }

  /** Some net need that makes a VM with less net reserved the better one. */
  lemma SomeNetMisplaces(g: Guests, n: nat, memory: real, scale: nat, home: nat, other: nat) returns (net: real)
    requires g.Valid() && PowerOf(g.pow, n) && scale >= 1 && home < |g.load| && other < |g.load| && g.net[other] < g.net[home]
    ensures net >= memory && net >= 0.0 && !BestFor(g, memory, net, scale, home)
  {
    var lead := g.Marginal(other, memory, memory, scale) - g.Marginal(home, memory, memory, scale);
    Rising(g.pow, n, g.net[other] / MAX_VM_NET, g.net[home] / MAX_VM_NET);
    net := LargeNet(g.pow, n, memory, lead, NetWeight(g, home) - NetWeight(g, other));
    assert !Outweighed(g, memory, net, scale, home, other);
    BestForProcessIff(g, n, memory, net, scale, home);
  }

  lemma Exceeds(lead: real, gap: real, x: real)
    requires gap > 0.0 && x > lead / gap
    ensures gap * x > lead
  {
    assert lead == lead / gap * gap;
    assert gap * x - lead == gap * (x - lead / gap);
  }

  function Above(x: real, y: real): (k: nat)
    ensures k as real >= x && k as real >= y
  {
    var larger := if x < y then y else x;
    if larger <= 0.0 then 0 else larger.Floor + 1
  }

  /** For all larger net needs at once, exactly: the selected VM is the best one for every process of at least the net need the
      request says if and only if no VM has less net reserved than it. */
  lemma BestForLargerNetsIff(g: Guests, n: nat, memory: real, scale: nat, selected: nat, home: nat)
    requires g.Valid() && PowerOf(g.pow, n) && scale >= 1 && Selects(g, memory, scale, selected, home)
    ensures (forall net :: net >= memory ==> BestFor(g, memory, net, scale, home)) <==> LeastNet(g, home)
  {
    if LeastNet(g, home) {
      forall net | net >= memory ensures BestFor(g, memory, net, scale, home) {
        LeastNetIsBest(g, n, memory, net, scale, selected, home);
      }
    } else {
      var other :| 0 <= other < |g.load| && g.net[other] < g.net[home];
      var net := SomeNetMisplaces(g, n, memory, scale, home, other);
    }
  }

  /** The lead of the selected VM covers the case of a process that needs no net at all. */
  ghost predicate CoversNoNet(g: Guests, memory: real, scale: nat, home: nat)
    requires g.Valid() && scale >= 1 && home < |g.load|
  {
    forall other :: 0 <= other < |g.load| ==> Outweighed(g, memory, 0.0, scale, home, other)
  }

  /** The comparison is linear in what is not said, so a smaller net need than the request's lies between none and the one said. */
  lemma Between(weight: real, none: real, unsaid: real, lead: real)
    requires none <= unsaid <= 0.0 && weight * none <= lead && lead >= 0.0
    ensures weight * unsaid <= lead
  {
    if weight > 0.0 {
      NotPositive(weight, unsaid);
    } else {
      NotPositive(weight, unsaid - none);
      assert weight * unsaid == weight * none + weight * (unsaid - none);
    }
  }

  lemma CoveredBetween(g: Guests, memory: real, net: real, scale: nat, home: nat, other: nat)
    requires g.Valid() && scale >= 1 && home < |g.load| && other < |g.load| && Outweighed(g, memory, 0.0, scale, home, other)
    requires g.Marginal(home, memory, memory, scale) <= g.Marginal(other, memory, memory, scale)
    requires Unsaid(g, memory, 0.0) <= Unsaid(g, memory, net) <= 0.0
    ensures Outweighed(g, memory, net, scale, home, other)
  {
    Between(NetWeight(g, home) - NetWeight(g, other), Unsaid(g, memory, 0.0), Unsaid(g, memory, net),
            g.Marginal(other, memory, memory, scale) - g.Marginal(home, memory, memory, scale));
  }

  lemma SmallerNetIsCovered(g: Guests, n: nat, memory: real, net: real, scale: nat, selected: nat, home: nat)
    requires g.Valid() && PowerOf(g.pow, n) && scale >= 1 && Selects(g, memory, scale, selected, home)
    requires CoversNoNet(g, memory, scale, home) && 0.0 <= net <= memory
    ensures BestFor(g, memory, net, scale, home)
  {
    forall other | 0 <= other < |g.load| ensures Outweighed(g, memory, net, scale, home, other) {
      SelectedIsLeast(g, memory, scale, selected, home, other);
      Rising(g.pow, n, net / MAX_VM_NET, memory / MAX_VM_NET);
      Rising(g.pow, n, 0.0, net / MAX_VM_NET);
      CoveredBetween(g, memory, net, scale, home, other);
    }
    BestForProcessIff(g, n, memory, net, scale, home);
  }

  /** For all net needs, exactly: the selected VM is the best one for every process of that memory need if and only if no VM has less
      net reserved and the lead covers a process that needs no net. */
  lemma BestForEveryProcessIff(g: Guests, n: nat, memory: real, scale: nat, selected: nat, home: nat)
    requires g.Valid() && PowerOf(g.pow, n) && scale >= 1 && memory >= 0.0 && Selects(g, memory, scale, selected, home)
    ensures (forall net :: net >= 0.0 ==> BestFor(g, memory, net, scale, home))
       <==> LeastNet(g, home) && CoversNoNet(g, memory, scale, home)
  {
    BestForProcessIff(g, n, memory, 0.0, scale, home);
    if !LeastNet(g, home) {
      var other :| 0 <= other < |g.load| && g.net[other] < g.net[home];
      var net := SomeNetMisplaces(g, n, memory, scale, home, other);
    } else if CoversNoNet(g, memory, scale, home) {
      forall net | net >= 0.0 ensures BestFor(g, memory, net, scale, home) {
        if net >= memory {
          LeastNetIsBest(g, n, memory, net, scale, selected, home);
        } else {
          SmallerNetIsCovered(g, n, memory, net, scale, selected, home);
        }
      }
    } else {
      assert !BestFor(g, memory, 0.0, scale, home);
    }
  }

  /** A VM with less net reserved has no more processes and no more memory reserved. */
  ghost predicate Aligned(g: Guests)
    requires g.Valid()
  {
    forall u, v :: 0 <= u < |g.load| && 0 <= v < |g.load| && g.net[u] < g.net[v] ==> g.load[u] <= g.load[v] && g.mem[u] <= g.mem[v]
  }

  /** What can be read off the VMs before a request: if they are aligned, the selected VM is the best one for every process. */
  lemma AlignedIsBest(g: Guests, n: nat, memory: real, net: real, scale: nat, selected: nat, home: nat)
    requires g.Valid() && PowerOf(g.pow, n) && scale >= 1 && Selects(g, memory, scale, selected, home)
    requires Aligned(g) && memory > 0.0 && net >= 0.0
    ensures BestFor(g, memory, net, scale, home)
  {
    forall other | 0 <= other < |g.load|
      ensures g.Place(home, memory, net).Potential(scale) <= g.Place(other, memory, net).Potential(scale)
    {
      SelectedIsLeast(g, memory, scale, selected, home, other);
      if g.net[other] < g.net[home] {
        LessIsCheaper(g, n, memory, scale, other, home);
      } else {
        AlignedIsCheaper(g, n, memory, net, scale, home, other);
      }
      MarginalIsDifference(g, home, memory, net, scale);
      MarginalIsDifference(g, other, memory, net, scale);
    }
  }

  lemma AlignedIsCheaper(g: Guests, n: nat, memory: real, net: real, scale: nat, u: nat, v: nat)
    requires g.Valid() && PowerOf(g.pow, n) && scale >= 1 && u < |g.load| && v < |g.load| && Aligned(g)
    requires memory > 0.0 && net >= 0.0 && g.net[u] <= g.net[v]
    requires g.Marginal(u, memory, memory, scale) <= g.Marginal(v, memory, memory, scale)
    ensures g.Marginal(u, memory, net, scale) <= g.Marginal(v, memory, net, scale)
  {
    MarginalParts(g, u, memory, memory, scale);
    MarginalParts(g, v, memory, memory, scale);
    MarginalParts(g, u, memory, net, scale);
    MarginalParts(g, v, memory, net, scale);
    if g.net[u] < g.net[v] {
      Shares(g.load[u], g.load[v], scale);
      GainGrows(g.pow, n, g.load[u] as real / scale as real, g.load[v] as real / scale as real, 1.0 / scale as real);
      GainGrows(g.pow, n, g.mem[u] / MAX_VM_MEMORY, g.mem[v] / MAX_VM_MEMORY, memory / MAX_VM_MEMORY);
      GainGrows(g.pow, n, g.net[u] / MAX_VM_NET, g.net[v] / MAX_VM_NET, net / MAX_VM_NET);
    }
  }

  lemma LessIsCheaper(g: Guests, n: nat, memory: real, scale: nat, u: nat, v: nat)
    requires g.Valid() && PowerOf(g.pow, n) && scale >= 1 && memory > 0.0 && u < |g.load| && v < |g.load|
    requires g.load[u] <= g.load[v] && g.mem[u] <= g.mem[v] && g.net[u] < g.net[v]
    ensures g.Marginal(u, memory, memory, scale) < g.Marginal(v, memory, memory, scale)
  {
    MarginalParts(g, u, memory, memory, scale);
    MarginalParts(g, v, memory, memory, scale);
    Shares(g.load[u], g.load[v], scale);
    GainGrows(g.pow, n, g.load[u] as real / scale as real, g.load[v] as real / scale as real, 1.0 / scale as real);
    GainGrows(g.pow, n, g.mem[u] / MAX_VM_MEMORY, g.mem[v] / MAX_VM_MEMORY, memory / MAX_VM_MEMORY);
    GainGrows(g.pow, n, g.net[u] / MAX_VM_NET, g.net[v] / MAX_VM_NET, memory / MAX_VM_NET);
  }

  lemma MarginalParts(g: Guests, v: nat, rm: real, rn: real, scale: nat)
    requires g.Valid() && v < |g.load| && scale >= 1
    ensures g.Marginal(v, rm, rn, scale)
         == Gain(g.pow, g.load[v] as real / scale as real, 1.0 / scale as real)
          + Gain(g.pow, g.mem[v] / MAX_VM_MEMORY, rm / MAX_VM_MEMORY) + Gain(g.pow, g.net[v] / MAX_VM_NET, rn / MAX_VM_NET)
  {
    Shares(g.load[v], g.load[v], scale);
    assert (g.mem[v] + rm) / MAX_VM_MEMORY == g.mem[v] / MAX_VM_MEMORY + rm / MAX_VM_MEMORY;
    assert (g.net[v] + rn) / MAX_VM_NET == g.net[v] / MAX_VM_NET + rn / MAX_VM_NET;
  }

  lemma Shares(a: nat, b: nat, scale: nat)
    requires a <= b && scale >= 1
    ensures a as real / scale as real <= b as real / scale as real
    ensures (a + 1) as real / scale as real == a as real / scale as real + 1.0 / scale as real
    ensures (b + 1) as real / scale as real == b as real / scale as real + 1.0 / scale as real
    ensures 1.0 / scale as real > 0.0
  {
  }

  /** As long as all VMs have the same net reserved, the misstatement changes no selection. */
  lemma EqualNetsSameSelection(g: Guests, n: nat, memory: real, net: real, scale: nat, selected: nat, home: nat)
    requires g.Valid() && PowerOf(g.pow, n) && scale >= 1 && selected < |g.load| && home < |g.load|
    requires forall u, v :: 0 <= u < |g.load| && 0 <= v < |g.load| ==> g.net[u] == g.net[v]
    ensures FirstCheapest(g.Marginals(memory, memory, scale), selected, |g.load|, home)
       <==> FirstCheapest(g.Marginals(memory, net, scale), selected, |g.load|, home)
  {
    var asked, needed := g.Marginals(memory, memory, scale), g.Marginals(memory, net, scale);
    var shift := NetWeight(g, home) * Unsaid(g, memory, net);
    forall v | 0 <= v < |g.load| ensures needed[v] == asked[v] + shift {
      TrueMarginal(g, n, v, memory, net, scale);
      assert g.net[v] == g.net[home];
    }
    ShiftedCheapest(asked, needed, shift, selected, home);
  }

  lemma ShiftedCheapest(costs: seq<real>, costs': seq<real>, shift: real, selected: nat, home: nat)
    requires |costs| == |costs'| && selected < |costs| && home < |costs|
    requires forall v :: 0 <= v < |costs| ==> costs'[v] == costs[v] + shift
    ensures FirstCheapest(costs, selected, |costs|, home) <==> FirstCheapest(costs', selected, |costs|, home)
  {
  }
}
