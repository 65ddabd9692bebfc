/** How `max_guest_job` follows the process counts (simgrid/organizer/hpvc.c:413-454, 570-658): placements are decided by the
    balancer, carried out a little later by `create_tasks`, and processes exit at any time in between. */
module GuestScale {
  import opened GuestBalancer

  datatype Pending = Nothing | At(vm: nat)

  /** Process counts per VM, the scale and the placement under way; `peak` is the largest count any VM ever had, and `asked`
      the largest count any decision was based on. */
  datatype State = State(load: seq<nat>, scale: nat, pending: Pending, peak: nat, asked: nat)

  datatype Event = Decide(vm: nat) | Create | Exit(vm: nat)

  /** Every VM starts with its mailbox listener; `main` sets the scale to 1. */
  function Start(vms: nat): State {
    State(seq(vms, _ => 1), 1, Nothing, 1, 1)
  }

  predicate Enabled(s: State, e: Event) {
    match e
    case Decide(v) => s.pending.Nothing? && v < |s.load|
    case Create => s.pending.At? && s.pending.vm < |s.load|
    case Exit(v) => v < |s.load| && s.load[v] > 0
  }

  function Max(a: nat, b: nat): nat { if a < b then b else a }

  function Apply(s: State, e: Event): State
    requires Enabled(s, e)
  {
    match e
    case Decide(v) =>
      var newLoad := s.load[v] + 1;
      s.(scale := NextScale(s.scale, newLoad), pending := At(v), asked := Max(s.asked, newLoad))
    case Create =>
      var v := s.pending.vm;
      s.(load := s.load[v := s.load[v] + 1], pending := Nothing, peak := Max(s.peak, s.load[v] + 1))
    case Exit(v) => s.(load := s.load[v := s.load[v] - 1])
  }

  predicate Possible(s: State, events: seq<Event>)
    decreases |events|
  {
    events == [] || (Enabled(s, events[0]) && Possible(Apply(s, events[0]), events[1..]))
  }

  function Run(s: State, events: seq<Event>): State
    requires Possible(s, events)
    decreases |events|
  {
    if events == [] then s else Run(Apply(s, events[0]), events[1..])
  }

  predicate PowerOfTwo(n: nat) {
    n == 1 || (n > 0 && n % 2 == 0 && PowerOfTwo(n / 2))
  }

  lemma DoublePower(n: nat)
    requires PowerOfTwo(n)
    ensures PowerOfTwo(2 * n)
  {
    assert 2 * n / 2 == n && 2 * n % 2 == 0;
  }

  /** The scale covers every count, also the one a pending creation leads to, and is at most twice what was ever asked for. */
  predicate Inv(s: State) {
    && PowerOfTwo(s.scale)
    && (forall v :: 0 <= v < |s.load| ==> s.load[v] <= s.scale && s.load[v] <= s.peak)
    && (s.pending.At? ==> s.pending.vm < |s.load| && s.load[s.pending.vm] + 1 <= s.scale)
    && s.scale <= 2 * s.asked && s.asked <= s.peak + 1 && s.peak >= 1
  }

  lemma StepKeepsInv(s: State, e: Event)
    requires Inv(s) && Enabled(s, e)
    ensures Inv(Apply(s, e))
  {
    DoublePower(s.scale);
  }

  lemma {:induction false} RunKeepsInv(s: State, events: seq<Event>)
    requires Inv(s) && Possible(s, events)
    ensures Inv(Run(s, events)) && |Run(s, events).load| == |s.load|
    decreases |events|
  {
    if events != [] {
      StepKeepsInv(s, events[0]);
      RunKeepsInv(Apply(s, events[0]), events[1..]);
    }
  }

  /** In every run: the scale is a power of two, no VM has more processes than it, and it is at most 2 * (peak + 1). */
  lemma ScaleFollowsLoad(vms: nat, events: seq<Event>, v: nat)
    requires Possible(Start(vms), events) && v < vms
    ensures var s := Run(Start(vms), events);
      |s.load| == vms && PowerOfTwo(s.scale) && s.load[v] <= s.scale && s.scale <= 2 * (s.peak + 1)
  {
    RunKeepsInv(Start(vms), events);
  }

  /** In every state of the run in which no placement is under way the scale is at most twice the peak. */
  predicate InRange(s: State, events: seq<Event>)
    requires Possible(s, events)
    decreases |events|
  {
    && (s.pending.Nothing? ==> s.scale <= 2 * s.peak)
    && (events == [] || InRange(Apply(s, events[0]), events[1..]))
  }

  /** Whether a decision doubles a scale that is already above the peak; then only the creation itself can bring the peak up. */
  predicate Risky(s: State, v: nat)
    requires v < |s.load|
  {
    s.load[v] + 1 >= s.scale > s.peak
  }

  /** After no such decision does a process exit on the selected VM before the creation there. `risky` tells whether the pending
      decision was one. */
  predicate NoBadExit(s: State, events: seq<Event>, risky: bool)
    requires Possible(s, events)
    decreases |events|
  {
    events == []
    || (match events[0]
        case Decide(v) => NoBadExit(Apply(s, events[0]), events[1..], Risky(s, v))
        case Create => NoBadExit(Apply(s, events[0]), events[1..], false)
        case Exit(v) => !(risky && s.pending == At(v)) && NoBadExit(Apply(s, events[0]), events[1..], risky))
  }

  /** A pending creation will leave the peak below half of the scale. */
  predicate Doomed(s: State) {
    s.pending.At? && s.pending.vm < |s.load| && s.scale > 2 * s.peak && s.scale > 2 * (s.load[s.pending.vm] + 1)
  }

  lemma {:induction false} DoomedLeaves(s: State, events: seq<Event>)
    requires Doomed(s) && Possible(s, events) && Run(s, events).pending.Nothing?
    ensures !InRange(s, events)
    decreases |events|
  {
    if !events[0].Create? {
      DoomedLeaves(Apply(s, events[0]), events[1..]);
    } else {
      assert !InRange(Apply(s, events[0]), events[1..]);
    }
  }

  /** Where a run in range stands, depending on the pending decision. */
  predicate OnTrack(s: State, risky: bool) {
    && Inv(s)
    && if risky then s.pending.At? && s.scale > 2 * s.peak && s.scale == 2 * (s.load[s.pending.vm] + 1) else s.scale <= 2 * s.peak
  }

  lemma {:induction false} RangeIff(s: State, events: seq<Event>, risky: bool)
    requires OnTrack(s, risky) && Possible(s, events) && Run(s, events).pending.Nothing?
    ensures InRange(s, events) <==> NoBadExit(s, events, risky)
    decreases |events|
  {
    if events != [] {
      var e, s' := events[0], Apply(s, events[0]);
      StepKeepsInv(s, e);
      if e.Exit? && risky && s.pending == At(e.vm) {
        DoomedLeaves(s', events[1..]);
      } else {
        RangeIff(s', events[1..], if e.Decide? then Risky(s, e.vm) else e.Exit? && risky);
      }
    }
  }

  /** Over any run that leaves no placement under way: the scale is at most twice the peak all along if and only if no process
      exits on a selected VM between a decision that doubles the scale past the peak and the creation. */
  lemma ScaleWithinTwicePeakIff(vms: nat, events: seq<Event>)
    requires Possible(Start(vms), events) && Run(Start(vms), events).pending.Nothing?
    ensures InRange(Start(vms), events) <==> NoBadExit(Start(vms), events, false)
  {
    RangeIff(Start(vms), events, false);
  }

  lemma {:induction false} RangeAtEnd(s: State, events: seq<Event>)
    requires Possible(s, events) && InRange(s, events) && Run(s, events).pending.Nothing?
    ensures Run(s, events).scale <= 2 * Run(s, events).peak
    decreases |events|
  {
    if events != [] { RangeAtEnd(Apply(s, events[0]), events[1..]); }
  }

  /** So without such an exit the scale ends within twice the peak. */
  lemma ScaleWithinTwicePeak(vms: nat, events: seq<Event>)
    requires Possible(Start(vms), events) && NoBadExit(Start(vms), events, false)
    requires Run(Start(vms), events).pending.Nothing?
    ensures Run(Start(vms), events).scale <= 2 * Run(Start(vms), events).peak
  {
    ScaleWithinTwicePeakIff(vms, events);
    RangeAtEnd(Start(vms), events);
  }

  /** A run in which one does: one VM with its listener and two processes, a third one decided, one exit, then the creation. The
      scale is 8 although there never were more than 3 processes. */
  lemma ScaleOutrunsPeak()
    ensures var events := [Decide(0), Create, Decide(0), Create, Decide(0), Exit(0), Create];
      && Possible(Start(1), events)
      && Run(Start(1), events).scale == 8 && Run(Start(1), events).peak == 3
  {
    var s0 := Start(1);
    var s1 := Apply(Apply(s0, Decide(0)), Create);
    var s2 := Apply(Apply(s1, Decide(0)), Create);
    var s3 := Apply(Apply(Apply(s2, Decide(0)), Exit(0)), Create);
    assert s1 == State([2], 2, Nothing, 2, 2);
    assert s2 == State([3], 4, Nothing, 3, 3);
    assert s3 == State([3], 8, Nothing, 3, 4);
    TwoSteps(s2, Decide(0), Exit(0), [Create]);
    TwoSteps(s1, Decide(0), Create, [Decide(0), Exit(0), Create]);
    TwoSteps(s0, Decide(0), Create, [Decide(0), Create, Decide(0), Exit(0), Create]);
  }

  lemma TwoSteps(s: State, a: Event, b: Event, rest: seq<Event>)
    requires Enabled(s, a) && Enabled(Apply(s, a), b) && Possible(Apply(Apply(s, a), b), rest)
    ensures Possible(s, [a, b] + rest) && Run(s, [a, b] + rest) == Run(Apply(Apply(s, a), b), rest)
  {
    assert ([a, b] + rest)[1..] == [b] + rest;
    assert ([b] + rest)[1..] == rest;
  }
}
