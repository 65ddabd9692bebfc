/** The monitor server's host registry (c/monitor/server.c:132-168, 222-230): a linked list of host metrics, kept as a sequence. */
module Registry {
  import opened Wrappers
  import opened Arithmetic

  datatype HostMetric = HostMetric(ip: string, cpu: nat, corePerCpu: int, cpuLoad: real, ram: nat, ramAverage: int)

  /** AVERAGE_RATE - 1 parts of the new reading to one part of the stored one, divided by AVERAGE_RATE. */
  const AVERAGE_RATE: nat := 9

  function SmoothLoad(stored: real, reading: real): real {
    ((AVERAGE_RATE - 1) as real * reading + stored) / AVERAGE_RATE as real
  }

  /** C's int division truncates towards zero. */
  function SmoothRam(stored: int, reading: int): int {
    var sum := (AVERAGE_RATE - 1) * reading + stored;
    if sum >= 0 then sum / AVERAGE_RATE else -(-sum / AVERAGE_RATE)
  }

  /** A stored metric after a further message from the same host. */
  function Merge(stored: HostMetric, message: HostMetric): HostMetric {
    message.(cpuLoad := SmoothLoad(stored.cpuLoad, message.cpuLoad), ramAverage := SmoothRam(stored.ramAverage, message.ramAverage))
  }

  /** The list after one message, as a function: the first host with the message's address is merged, or a new one appended. */
  function Reported(hosts: seq<HostMetric>, message: HostMetric): seq<HostMetric> {
    if hosts == [] then [message]
    else if hosts[0].ip == message.ip then [Merge(hosts[0], message)] + hosts[1..]
    else [hosts[0]] + Reported(hosts[1..], message)
  }

  function Lookup(hosts: seq<HostMetric>, ip: string): Option<HostMetric> {
    if hosts == [] then None else if hosts[0].ip == ip then Some(hosts[0]) else Lookup(hosts[1..], ip)
  }

  lemma {:induction false} ReportedUpdates(hosts: seq<HostMetric>, message: HostMetric, i: nat)
    requires i < |hosts| && hosts[i].ip == message.ip && forall j :: 0 <= j < i ==> hosts[j].ip != message.ip
    ensures Reported(hosts, message) == hosts[i := Merge(hosts[i], message)]
  {
    if i > 0 {
      ReportedUpdates(hosts[1..], message, i - 1);
    }
  }

  lemma {:induction false} ReportedAppends(hosts: seq<HostMetric>, message: HostMetric)
    requires forall j :: 0 <= j < |hosts| ==> hosts[j].ip != message.ip
    ensures Reported(hosts, message) == hosts + [message]
  {
    if hosts != [] { ReportedAppends(hosts[1..], message); }
  }

  class Server {
    var hosts: seq<HostMetric>

    constructor ()
      ensures hosts == []
    {
      hosts := [];
    }

    /** The first host with an address, if there is one. */
    method FindHost(ip: string) returns (index: int)
      ensures index == -1 ==> forall j :: 0 <= j < |hosts| ==> hosts[j].ip != ip
      ensures index != -1 ==> 0 <= index < |hosts| && hosts[index].ip == ip && forall j :: 0 <= j < index ==> hosts[j].ip != ip
    {
      var i := 0;
      while i < |hosts|
        invariant 0 <= i <= |hosts|
        invariant forall j :: 0 <= j < i ==> hosts[j].ip != ip
      {
        if hosts[i].ip == ip { return i; }
        i := i + 1;
      }
      return -1;
    }

    /** Takes one message; one that cannot be unpacked is refused with code 1. */
    method SetHostUtility(unpacked: Option<HostMetric>) returns (code: int)
      modifies this
      ensures unpacked.None? ==> code == 1 && hosts == old(hosts)
      ensures unpacked.Some? ==> code == 0 && hosts == Reported(old(hosts), unpacked.value)
    {
      if unpacked.None? { return 1; }
      var message := unpacked.value;
      var index := FindHost(message.ip);
      if index == -1 {
        ReportedAppends(hosts, message);
        hosts := hosts + [message];
      } else {
        ReportedUpdates(hosts, message, index);
        hosts := hosts[index := Merge(hosts[index], message)];
      }
      return 0;
    }

    /** The server's loop over the messages it receives. */
    method Serve(messages: seq<Option<HostMetric>>)
      modifies this
      ensures hosts == AfterAll(old(hosts), Unpacked(messages))
    {
      var i := 0;
      assert messages[..0] == [];
      while i < |messages|
        invariant 0 <= i <= |messages|
        invariant hosts == AfterAll(old(hosts), Unpacked(messages[..i]))
      {
        OneMoreMessage(old(hosts), messages, i);
        var _ := SetHostUtility(messages[i]);
        i := i + 1;
      }
      assert messages[..|messages|] == messages;
    }
  }

  function Unpacked(messages: seq<Option<HostMetric>>): seq<HostMetric> {
    if messages == [] then []
    else
      var n := |messages| - 1;
      Unpacked(messages[..n]) + if messages[n].Some? then [messages[n].value] else []
  }

  function AfterAll(hosts: seq<HostMetric>, messages: seq<HostMetric>): seq<HostMetric> {
    if messages == [] then hosts else Reported(AfterAll(hosts, messages[..|messages| - 1]), messages[|messages| - 1])
  }

  lemma AfterOneMore(hosts: seq<HostMetric>, messages: seq<HostMetric>, message: HostMetric)
    ensures AfterAll(hosts, messages + [message]) == Reported(AfterAll(hosts, messages), message)
  {
    assert (messages + [message])[..|messages|] == messages;
  }

  lemma OneMoreMessage(hosts: seq<HostMetric>, messages: seq<Option<HostMetric>>, i: nat)
    requires i < |messages|
    ensures AfterAll(hosts, Unpacked(messages[..i + 1]))
         == match messages[i]
            case None => AfterAll(hosts, Unpacked(messages[..i]))
            case Some(message) => Reported(AfterAll(hosts, Unpacked(messages[..i])), message)
  {
    assert messages[..i + 1][..i] == messages[..i];
    if messages[i].Some? {
      AfterOneMore(hosts, Unpacked(messages[..i]), messages[i].value);
    } else {
      assert Unpacked(messages[..i + 1]) == Unpacked(messages[..i]);
    }
  }

  function Addresses(hosts: seq<HostMetric>): seq<string> { seq(|hosts|, i requires 0 <= i < |hosts| => hosts[i].ip) }

  /** The addresses of the messages, each once, in the order of their first message. */
  function FirstReports(messages: seq<HostMetric>): seq<string> {
    if messages == [] then []
    else
      var n := |messages| - 1;
      var before := FirstReports(messages[..n]);
      if messages[n].ip in before then before else before + [messages[n].ip]
  }

  /** The messages one host has sent. */
  function Own(messages: seq<HostMetric>, ip: string): seq<HostMetric> {
    if messages == [] then []
    else
      var n := |messages| - 1;
      Own(messages[..n], ip) + if messages[n].ip == ip then [messages[n]] else []
  }

  /** What one host's messages add up to: the first as it is, then each merged into what is stored. */
  function Fold(own: seq<HostMetric>): Option<HostMetric> {
    if own == [] then None
    else
      var last := own[|own| - 1];
      match Fold(own[..|own| - 1])
      case None => Some(last)
      case Some(stored) => Some(Merge(stored, last))
  }

  predicate Distinct(ips: seq<string>) { forall i, j :: 0 <= i < j < |ips| ==> ips[i] != ips[j] }

  lemma {:induction false} LookupAfterReport(hosts: seq<HostMetric>, message: HostMetric, ip: string)
    ensures Lookup(Reported(hosts, message), ip)
         == if message.ip != ip then Lookup(hosts, ip)
            else match Lookup(hosts, ip) case None => Some(message) case Some(stored) => Some(Merge(stored, message))
  {
    if hosts != [] && hosts[0].ip != message.ip {
      LookupAfterReport(hosts[1..], message, ip);
    }
  }

  lemma AddressesOf(first: HostMetric, rest: seq<HostMetric>)
    ensures Addresses([first] + rest) == [first.ip] + Addresses(rest)
  {
  }

  lemma {:induction false} AddressesAfterReport(hosts: seq<HostMetric>, message: HostMetric)
    ensures Addresses(Reported(hosts, message))
         == if message.ip in Addresses(hosts) then Addresses(hosts) else Addresses(hosts) + [message.ip]
  {
    if hosts != [] {
      var first, rest := hosts[0], hosts[1..];
      assert hosts == [first] + rest;
      AddressesOf(first, rest);
      if first.ip != message.ip {
        AddressesAfterReport(rest, message);
        AddressesOf(first, Reported(rest, message));
      } else {
        AddressesOf(Merge(first, message), rest);
      }
    }
  }

  lemma {:induction false} FirstReportsDistinct(messages: seq<HostMetric>)
    ensures Distinct(FirstReports(messages))
  {
    if messages != [] { FirstReportsDistinct(messages[..|messages| - 1]); }
  }

  /** The registry after any messages: one entry per address, in the order of the first messages. */
  lemma {:induction false} OneEntryPerHost(messages: seq<HostMetric>)
    ensures Addresses(AfterAll([], messages)) == FirstReports(messages)
    ensures Distinct(Addresses(AfterAll([], messages)))
  {
    FirstReportsDistinct(messages);
    if messages != [] {
      var n := |messages| - 1;
      OneEntryPerHost(messages[..n]);
      AddressesAfterReport(AfterAll([], messages[..n]), messages[n]);
    }
  }

  lemma FoldOneMore(own: seq<HostMetric>, message: HostMetric)
    ensures Fold(own + [message])
         == match Fold(own) case None => Some(message) case Some(stored) => Some(Merge(stored, message))
  {
    assert (own + [message])[..|own|] == own;
  }

  /** The list refines a map from addresses to metrics: an entry is made of its own host's messages alone. */
  lemma {:induction false} RefinesMap(messages: seq<HostMetric>, ip: string)
    ensures Lookup(AfterAll([], messages), ip) == Fold(Own(messages, ip))
  {
    if messages != [] {
      var n := |messages| - 1;
      RefinesMap(messages[..n], ip);
      LookupAfterReport(AfterAll([], messages[..n]), messages[n], ip);
      if messages[n].ip == ip {
        FoldOneMore(Own(messages[..n], ip), messages[n]);
      } else {
        assert Own(messages, ip) == Own(messages[..n], ip);
      }
    }
  }

  /** The stored RAM average after `k` messages with the same reading. */
  function RamAfter(stored: int, reading: int, k: nat): int {
    if k == 0 then stored else SmoothRam(RamAfter(stored, reading, k - 1), reading)
  }

  lemma DivideTwice(d: nat, n: nat)
    requires n > 0
    ensures d / n / 9 == d / (n * 9)
  {
    var q, r := d / n, d % n;
    DivMod(d, n);
    Recompose(q / 9, q % 9, n, r);
    DivIs(q / 9, q % 9 * n + r, n * 9);
  }

  lemma Recompose(q: nat, digit: nat, n: nat, r: nat)
    requires digit < 9 && r < n
    ensures (9 * q + digit) * n + r == q * (n * 9) + (digit * n + r)
    ensures digit * n + r < n * 9
  {
    ProductMonotone(digit, 8, n);
    assert (9 * q + digit) * n == 9 * (q * n) + digit * n && q * (n * 9) == 9 * (q * n);
  }

  /** The weighted mean of eight parts new and one part stored, cut off towards zero. */
  lemma RamIsTruncated(stored: int, reading: int)
    ensures var sum, r := 8 * reading + stored, SmoothRam(stored, reading);
      (sum >= 0 ==> 9 * r <= sum < 9 * r + 9) && (sum <= 0 ==> 9 * r - 9 < sum <= 9 * r)
  {
  }

  lemma OverStep(reading: int, q: nat)
    requires reading >= 0
    ensures SmoothRam(reading + q, reading) == reading + q / 9
  {
  }

  /** From above the gap to a constant reading is d / 9^k rounded down. */
  lemma {:induction false} GapFromAbove(stored: int, reading: int, k: nat)
    requires 0 <= reading <= stored
    ensures RamAfter(stored, reading, k) >= reading
    ensures RamAfter(stored, reading, k) - reading == (stored - reading) / Power(9, k)
  {
    if k > 0 {
      GapFromAbove(stored, reading, k - 1);
      DivideTwice(stored - reading, Power(9, k - 1));
      OverStep(reading, RamAfter(stored, reading, k - 1) - reading);
    }
  }

  /** d / n rounded up. */
  function CeilDiv(d: nat, n: nat): nat
    requires n > 0
  {
    if d == 0 then 0 else (d - 1) / n + 1
  }

  lemma {:induction false} ShortBy(stored: int, reading: int, k: nat)
    requires 0 <= stored < reading
    ensures stored <= RamAfter(stored, reading, k) < reading
    ensures reading - 1 - RamAfter(stored, reading, k) == (reading - stored - 1) / Power(9, k)
  {
    if k > 0 {
      ShortBy(stored, reading, k - 1);
      var q, p := reading - 1 - RamAfter(stored, reading, k - 1), Power(9, k - 1);
      ShortStep(stored, reading, q);
      DivideTwice(reading - stored - 1, p);
      assert Power(9, k) == p * 9 && q / 9 == (reading - stored - 1) / (p * 9);
    }
  }

  lemma ShortStep(stored: int, reading: int, q: nat)
    requires 0 <= stored <= reading - 1 - q
    ensures SmoothRam(reading - 1 - q, reading) == reading - 1 - q / 9 && stored <= reading - 1 - q / 9
  {
  }

  /** From below it is d / 9^k rounded up. */
  lemma GapFromBelow(stored: int, reading: int, k: nat)
    requires 0 <= stored <= reading
    ensures reading - RamAfter(stored, reading, k) == CeilDiv(reading - stored, Power(9, k))
  {
    if stored < reading {
      ShortBy(stored, reading, k);
    } else {
      GapFromAbove(stored, reading, k);
      DivIs(0, 0, Power(9, k));
    }
  }

  lemma Quotient(d: nat, n: nat)
    requires n > 0
    ensures d / n == 0 <==> d < n
  {
    DivMod(d, n);
    if d < n { DivIs(0, d, n); }
  }

  /** So the average reaches the reading from above once 9^k exceeds the gap, and from below never does: it stays one short. */
  lemma RamSettles(stored: int, reading: int, k: nat)
    requires 0 <= stored && 0 <= reading
    ensures stored >= reading ==> (RamAfter(stored, reading, k) == reading <==> stored - reading < Power(9, k))
    ensures stored < reading ==> RamAfter(stored, reading, k) <= reading - 1
    ensures stored < reading ==> (RamAfter(stored, reading, k) == reading - 1 <==> reading - stored <= Power(9, k))
  {
    if stored >= reading {
      GapFromAbove(stored, reading, k);
      Quotient(stored - reading, Power(9, k));
    } else {
      GapFromBelow(stored, reading, k);
      Quotient(reading - stored - 1, Power(9, k));
    }
  }

  /** The CPU load is smoothed without rounding: its gap shrinks to a ninth each time. */
  function LoadAfter(stored: real, reading: real, k: nat): real {
    if k == 0 then stored else SmoothLoad(LoadAfter(stored, reading, k - 1), reading)
  }

  lemma {:induction false} LoadGap(stored: real, reading: real, k: nat)
    ensures (LoadAfter(stored, reading, k) - reading) * Power(9, k) as real == stored - reading
  {
    if k > 0 {
      LoadGap(stored, reading, k - 1);
      assert LoadAfter(stored, reading, k) - reading == (LoadAfter(stored, reading, k - 1) - reading) / 9.0;
      assert Power(9, k) as real == 9.0 * Power(9, k - 1) as real;
    }
  }

  /** A host that keeps reporting the same RAM average. */
  predicate Constant(more: seq<HostMetric>, ip: string, reading: int) {
    forall i :: 0 <= i < |more| && more[i].ip == ip ==> more[i].ramAverage == reading
  }

  lemma {:induction false} FoldConstant(own: seq<HostMetric>, more: seq<HostMetric>, reading: int)
    requires own != [] && forall i :: 0 <= i < |more| ==> more[i].ramAverage == reading
    ensures Fold(own).Some? && Fold(own + more).Some?
    ensures Fold(own + more).value.ramAverage == RamAfter(Fold(own).value.ramAverage, reading, |more|)
    decreases |more|
  {
    if more == [] {
      assert own + more == own;
    } else {
      var n := |more| - 1;
      FoldConstant(own, more[..n], reading);
      assert (own + more)[..|own + more| - 1] == own + more[..n];
    }
  }

  lemma {:induction false} OwnAppend(messages: seq<HostMetric>, more: seq<HostMetric>, ip: string)
    ensures Own(messages + more, ip) == Own(messages, ip) + Own(more, ip)
    decreases |more|
  {
    if more == [] {
      assert messages + more == messages;
    } else {
      var n := |more| - 1;
      OwnAppend(messages, more[..n], ip);
      assert (messages + more)[..|messages + more| - 1] == messages + more[..n];
    }
  }

  lemma {:induction false} OwnConstant(more: seq<HostMetric>, ip: string, reading: int, i: nat)
    requires Constant(more, ip, reading) && i < |Own(more, ip)|
    ensures Own(more, ip)[i].ramAverage == reading
  {
    var n := |more| - 1;
    if i < |Own(more[..n], ip)| { OwnConstant(more[..n], ip, reading, i); }
  }

  /** In the server, however the messages of the hosts interleave: a host that has reported and from then on always reports the
      same non-negative reading has the stored average RamSettles speaks of, `k` being the number of its own messages. */
  lemma ServerSettles(messages: seq<HostMetric>, more: seq<HostMetric>, ip: string, reading: int)
    requires Own(messages, ip) != [] && Constant(more, ip, reading)
    ensures Lookup(AfterAll([], messages), ip).Some? && Lookup(AfterAll([], messages + more), ip).Some?
    ensures Lookup(AfterAll([], messages + more), ip).value.ramAverage
         == RamAfter(Lookup(AfterAll([], messages), ip).value.ramAverage, reading, |Own(more, ip)|)
  {
    RefinesMap(messages, ip);
    RefinesMap(messages + more, ip);
    OwnAppend(messages, more, ip);
    forall i | 0 <= i < |Own(more, ip)| ensures Own(more, ip)[i].ramAverage == reading {
      OwnConstant(more, ip, reading, i);
    }
    FoldConstant(Own(messages, ip), Own(more, ip), reading);
  }

  lemma {:induction false} FoldNonNegative(own: seq<HostMetric>)
    requires forall i :: 0 <= i < |own| ==> own[i].ramAverage >= 0
    ensures Fold(own).Some? ==> Fold(own).value.ramAverage >= 0
  {
    if own != [] { FoldNonNegative(own[..|own| - 1]); }
  }

  lemma {:induction false} OwnNonNegative(messages: seq<HostMetric>, ip: string, i: nat)
    requires (forall j :: 0 <= j < |messages| ==> messages[j].ramAverage >= 0) && i < |Own(messages, ip)|
    ensures Own(messages, ip)[i].ramAverage >= 0
  {
    var n := |messages| - 1;
    if i < |Own(messages[..n], ip)| { OwnNonNegative(messages[..n], ip, i); }
  }

  /** After enough of its messages the server shows the reading itself or, coming from below, one less. */
  lemma ServerReaches(messages: seq<HostMetric>, more: seq<HostMetric>, ip: string, reading: nat, stored: int)
    requires forall j :: 0 <= j < |messages| ==> messages[j].ramAverage >= 0
    requires Own(messages, ip) != [] && Constant(more, ip, reading)
    requires Lookup(AfterAll([], messages), ip).Some? ==> stored == Lookup(AfterAll([], messages), ip).value.ramAverage
    requires 0 - Power(9, |Own(more, ip)|) <= stored - reading < Power(9, |Own(more, ip)|)
    ensures Lookup(AfterAll([], messages + more), ip).Some?
    ensures Lookup(AfterAll([], messages + more), ip).value.ramAverage == if stored < reading then reading - 1 else reading
  {
    ServerSettles(messages, more, ip, reading);
    RefinesMap(messages, ip);
    forall i | 0 <= i < |Own(messages, ip)| ensures Own(messages, ip)[i].ramAverage >= 0 {
      OwnNonNegative(messages, ip, i);
    }
    FoldNonNegative(Own(messages, ip));
    RamSettles(stored, reading, |Own(more, ip)|);
  }

  /** Everything but the two averages is what the host's last message says. */
  lemma FoldShowsLast(own: seq<HostMetric>)
    requires own != []
    ensures Fold(own).Some?
    ensures var shown, last := Fold(own).value, own[|own| - 1];
      shown.ip == last.ip && shown.cpu == last.cpu && shown.corePerCpu == last.corePerCpu && shown.ram == last.ram
  {
  }

  lemma LastMessageShown(messages: seq<HostMetric>, ip: string)
    requires Own(messages, ip) != []
    ensures Lookup(AfterAll([], messages), ip).Some?
    ensures var shown := Lookup(AfterAll([], messages), ip).value;
      var last := Own(messages, ip)[|Own(messages, ip)| - 1];
      shown.cpu == last.cpu && shown.corePerCpu == last.corePerCpu && shown.ram == last.ram
  {
    RefinesMap(messages, ip);
    FoldShowsLast(Own(messages, ip));
  }

  /** The first message of a host is shown as it is. */
  lemma FirstMessageShown(messages: seq<HostMetric>, ip: string)
    requires |Own(messages, ip)| == 1
    ensures Lookup(AfterAll([], messages), ip) == Some(Own(messages, ip)[0])
  {
    RefinesMap(messages, ip);
  }

  lemma {:induction false} FoldConstantLoad(own: seq<HostMetric>, more: seq<HostMetric>, reading: real)
    requires own != [] && forall i :: 0 <= i < |more| ==> more[i].cpuLoad == reading
    ensures Fold(own).Some? && Fold(own + more).Some?
    ensures Fold(own + more).value.cpuLoad == LoadAfter(Fold(own).value.cpuLoad, reading, |more|)
    decreases |more|
  {
    if more == [] {
      assert own + more == own;
    } else {
      var n := |more| - 1;
      FoldConstantLoad(own, more[..n], reading);
      assert (own + more)[..|own + more| - 1] == own + more[..n];
    }
  }

  lemma {:induction false} OwnConstantLoad(more: seq<HostMetric>, ip: string, reading: real, i: nat)
    requires (forall j :: 0 <= j < |more| && more[j].ip == ip ==> more[j].cpuLoad == reading) && i < |Own(more, ip)|
    ensures Own(more, ip)[i].cpuLoad == reading
  {
    var n := |more| - 1;
    if i < |Own(more[..n], ip)| { OwnConstantLoad(more[..n], ip, reading, i); }
  }

  /** A gap times 9^k. */
  function TimesNine(gap: real, k: nat): real { gap * Power(9, k) as real }

  /** The same for the CPU load, in the server and among other hosts' messages: while a host reports the same load, the gap of the
      one shown shrinks to a ninth with each of its messages. */
  lemma ServerLoadSettles(messages: seq<HostMetric>, more: seq<HostMetric>, ip: string, reading: real)
    requires Own(messages, ip) != [] && forall j :: 0 <= j < |more| && more[j].ip == ip ==> more[j].cpuLoad == reading
    ensures Lookup(AfterAll([], messages), ip).Some? && Lookup(AfterAll([], messages + more), ip).Some?
    ensures TimesNine(Lookup(AfterAll([], messages + more), ip).value.cpuLoad - reading, |Own(more, ip)|)
         == Lookup(AfterAll([], messages), ip).value.cpuLoad - reading
  {
    RefinesMap(messages, ip);
    RefinesMap(messages + more, ip);
    OwnAppend(messages, more, ip);
    forall i | 0 <= i < |Own(more, ip)| ensures Own(more, ip)[i].cpuLoad == reading {
      OwnConstantLoad(more, ip, reading, i);
    }
    FoldLoadGap(Own(messages, ip), Own(more, ip), reading);
  }

  lemma FoldLoadGap(own: seq<HostMetric>, more: seq<HostMetric>, reading: real)
    requires own != [] && forall i :: 0 <= i < |more| ==> more[i].cpuLoad == reading
    ensures Fold(own).Some? && Fold(own + more).Some?
    ensures TimesNine(Fold(own + more).value.cpuLoad - reading, |more|) == Fold(own).value.cpuLoad - reading
  {
    FoldConstantLoad(own, more, reading);
    LoadTimesNine(Fold(own).value.cpuLoad, reading, |more|);
  }

  lemma LoadTimesNine(stored: real, reading: real, k: nat)
    ensures TimesNine(LoadAfter(stored, reading, k) - reading, k) == stored - reading
  {
    LoadGap(stored, reading, k);
  }
}
