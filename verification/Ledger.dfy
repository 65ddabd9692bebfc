/** The reservation ledger (simgrid/organizer/hpvc.c:259-271, 655-671): the "mem" and "net" properties of a VM against the
    processes that exist on it, over every run of the protocol. */
module Ledger {
  import opened Protocol
  import opened ProtocolRuns

  /** A process that exists on VM `v` and has not released its resources. */
  predicate Holds(t: Task, v: nat) {
    (t.Working? || t.Releasing?) && t.home == v
  }

  /** What the processes among `tasks` hold on VM `v`, `amounts` being what each needs. */
  function Held(amounts: seq<real>, tasks: seq<Task>, v: nat): real
    requires |tasks| <= |amounts|
  {
    if tasks == [] then 0.0
    else
      var n := |tasks| - 1;
      Held(amounts, tasks[..n], v) + if Holds(tasks[n], v) then amounts[n] else 0.0
  }

  lemma {:induction false} HeldUpdate(amounts: seq<real>, tasks: seq<Task>, i: nat, t: Task, v: nat)
    requires i < |tasks| <= |amounts|
    ensures Held(amounts, tasks[i := t], v)
         == Held(amounts, tasks, v) - (if Holds(tasks[i], v) then amounts[i] else 0.0) + if Holds(t, v) then amounts[i] else 0.0
  {
    var n := |tasks| - 1;
    if i < n {
      HeldUpdate(amounts, tasks[..n], i, t, v);
      assert tasks[i := t][..n] == tasks[..n][i := t];
    } else {
      assert tasks[i := t][..n] == tasks[..n];
    }
  }

  lemma {:induction false} NothingHeld(amounts: seq<real>, tasks: seq<Task>, v: nat)
    requires |tasks| <= |amounts| && forall i :: 0 <= i < |tasks| ==> !Holds(tasks[i], v)
    ensures Held(amounts, tasks, v) == 0.0
  {
    if tasks != [] { NothingHeld(amounts, tasks[..|tasks| - 1], v); }
  }

  function Memories(c: Config): seq<real> { seq(|c.needs|, i requires 0 <= i < |c.needs| => c.needs[i].memory) }

  function Nets(c: Config): seq<real> { seq(|c.needs|, i requires 0 <= i < |c.needs| => c.needs[i].net) }

  /** What the creator has still to reserve on `v` for the process it has just created. */
  function Unreserved(amounts: seq<real>, creator: Creator, v: nat): real
    requires creator.Charging? ==> creator.i < |amounts|
  {
    if creator.Charging? && creator.home == v then amounts[creator.i] else 0.0
  }

  /** One property of all VMs agrees with the processes. */
  ghost predicate Agrees(amounts: seq<real>, s: State, books: seq<real>)
    requires |s.tasks| <= |amounts| && (s.creator.Charging? ==> s.creator.i < |amounts|)
  {
    forall v :: 0 <= v < |books| ==> books[v] == Held(amounts, s.tasks, v) - Unreserved(amounts, s.creator, v)
  }

  ghost predicate LedgerInv(c: Config, s: State) {
    && Inv(c, s)
    && Agrees(Memories(c), s, s.memory) && Agrees(Nets(c), s, s.net)
  }

  /** What a step does to one of the properties. */
  ghost function BooksAfter(c: Config, s: State, e: Event, amounts: seq<real>, books: seq<real>): seq<real>
    requires Shape(c, s) && Enabled(c, s, e) && |amounts| == |s.tasks| && |books| == c.vms
  {
    match e
    case Charge => books[s.creator.home := amounts[s.creator.i] + books[s.creator.home]]
    case Release(i) => books[s.tasks[i].home := -amounts[i] + books[s.tasks[i].home]]
    case _ => books
  }

  /** A step that replaces one task. */
  lemma TaskStepAgrees(c: Config, s: State, e: Event, amounts: seq<real>, books: seq<real>)
    requires Inv(c, s) && Enabled(c, s, e) && (e.Create? || e.Act? || e.Fin? || e.Release?)
    requires |amounts| == |s.tasks| && |books| == c.vms && Agrees(amounts, s, books) && Shape(c, Apply(c, s, e))
    ensures Agrees(amounts, Apply(c, s, e), BooksAfter(c, s, e, amounts, books))
  {
    var i := if e.Create? then s.creator.i else e.i;
    var s' := Apply(c, s, e);
    forall v | 0 <= v < c.vms
      ensures BooksAfter(c, s, e, amounts, books)[v] == Held(amounts, s'.tasks, v) - Unreserved(amounts, s'.creator, v)
    {
      HeldUpdate(amounts, s.tasks, i, s'.tasks[i], v);
    }
  }

  lemma StepAgrees(c: Config, s: State, e: Event, amounts: seq<real>, books: seq<real>)
    requires Inv(c, s) && Enabled(c, s, e)
    requires |amounts| == |s.tasks| && |books| == c.vms && Agrees(amounts, s, books) && Shape(c, Apply(c, s, e))
    ensures Agrees(amounts, Apply(c, s, e), BooksAfter(c, s, e, amounts, books))
  {
    if e.Create? || e.Act? || e.Fin? || e.Release? {
      TaskStepAgrees(c, s, e, amounts, books);
    }
  }

  lemma BooksAreWritten(c: Config, s: State, e: Event)
    requires Shape(c, s) && Enabled(c, s, e)
    ensures Apply(c, s, e).memory == BooksAfter(c, s, e, Memories(c), s.memory)
    ensures Apply(c, s, e).net == BooksAfter(c, s, e, Nets(c), s.net)
  {
  }

  lemma StepKeepsLedger(c: Config, s: State, e: Event)
    requires LedgerInv(c, s) && Enabled(c, s, e)
    ensures LedgerInv(c, Apply(c, s, e))
  {
    StepKeepsInv(c, s, e);
    BooksAreWritten(c, s, e);
    StepAgrees(c, s, e, Memories(c), s.memory);
    StepAgrees(c, s, e, Nets(c), s.net);
  }

  lemma {:induction false} RunKeepsLedger(c: Config, s: State, events: seq<Event>)
    requires LedgerInv(c, s) && Possible(c, s, events)
    ensures LedgerInv(c, Run(c, s, events))
    decreases |events|
  {
    if events != [] {
      StepKeepsLedger(c, s, events[0]);
      RunKeepsLedger(c, Apply(c, s, events[0]), events[1..]);
    }
  }

  lemma StartLedger(c: Config, organized: bool)
    requires c.Valid()
    ensures LedgerInv(c, Start(c, organized))
  {
    StartInv(c, organized);
    var s := Start(c, organized);
    forall v | 0 <= v < c.vms ensures Held(Memories(c), s.tasks, v) == Held(Nets(c), s.tasks, v) == 0.0 {
      NothingHeld(Memories(c), s.tasks, v);
      NothingHeld(Nets(c), s.tasks, v);
    }
  }

  /** In every reachable state a VM's properties are what the processes on it hold, except for a process just created and not yet
      reserved for, which may even have released its resources before that. */
  lemma LedgerBalances(c: Config, organized: bool, events: seq<Event>, s: State, v: nat)
    requires Reachable(c, organized, events, s) && Shape(c, s) && v < c.vms
    ensures s.memory[v] == Held(Memories(c), s.tasks, v) - Unreserved(Memories(c), s.creator, v)
    ensures s.net[v] == Held(Nets(c), s.tasks, v) - Unreserved(Nets(c), s.creator, v)
  {
    StartLedger(c, organized);
    RunKeepsLedger(c, Start(c, organized), events);
  }

  /** When the simulation is over, nothing is reserved anywhere. */
  lemma LedgerEndsEmpty(c: Config, organized: bool, events: seq<Event>, s: State, v: nat)
    requires Reachable(c, organized, events, s) && Shape(c, s) && v < c.vms
    requires OthersSteps(events) == (StartShape(c, organized); StepsLeft(c, Start(c, organized)))
    ensures s.memory[v] == 0.0 && s.net[v] == 0.0
  {
    StartShape(c, organized);
    RunsAreBounded(c, organized, events, s);
    LedgerBalances(c, organized, events, s, v);
    NothingHeld(Memories(c), s.tasks, v);
    NothingHeld(Nets(c), s.tasks, v);
  }
}
