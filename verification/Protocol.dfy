/** The processes of a simulation and the messages between them (simgrid/organizer/hpvc.c): `create_tasks`, the load balancer, the
    task processes, the mailbox listeners, `get_finalize` and the organizer. A send blocks until its receiver takes the message,
    so each send is one step of both. Steps interleave freely. */
module Protocol {
  import opened WorkLoop

  datatype Need = Need(memory: real, net: real)

  /** The fixed part of a run: how many VMs, what every process needs, and the parameters of its work loop. */
  datatype Config = Config(vms: nat, needs: seq<Need>, work: seq<Params>) {
    ghost predicate Valid() {
      && vms >= 1 && |work| == |needs|
      && forall i :: 0 <= i < |work| ==> work[i].Valid() && work[i].vms == vms
    }

    /** The work loop of every process ends. */
    ghost predicate WorkEnds() {
      forall i :: 0 <= i < |work| ==> work[i].Suffices()
    }
  }

  /** `create_tasks` at process `i`: sending a request, waiting for the answer, creating the process, reserving for it. */
  datatype Creator = Asking(i: nat) | Waiting(i: nat) | Creating(i: nat, home: nat) | Charging(i: nat, home: nat) | Finished

  datatype Balancer = Ready | Answering(home: nat) | Stopped

  /** A task process: `step` steps of its work loop are done; when all are, it sends fin; then it releases what was reserved for
      it. When only those are done that the sizes of its loop allow, it goes round in the loop for good. */
  datatype Task = Uncreated | Working(home: nat, step: nat) | Releasing(home: nat) | Exited(home: nat)

  datatype Finalizer = Collecting(n: nat) | Finishing(v: nat) | FinishingBalancer | Killing | Over

  datatype Organizer = Absent | Idle | Moving(vm: nat) | Killed

  datatype State = State(creator: Creator, balancer: Balancer, tasks: seq<Task>, listening: seq<bool>, finalizer: Finalizer,
                         organizer: Organizer, memory: seq<real>, net: seq<real>)

  datatype Event =
    | Ask(home: nat)           // the balancer takes the request and decides
    | Answer
    | Create
    | Charge
    | Act(i: nat)              // task i does its next step; a send is taken by the target's listener
    | Fin(i: nat)              // the finalizer takes task i's fin message
    | Release(i: nat)
    | FinishListener           // the next listener takes "finish" and stops
    | FinishBalancer           // the balancer takes the terminating request and stops
    | Kill
    | StartMove(vm: nat)       // the organizer begins to send the migrated memory to the VM's mailbox
    | EndMove

  function FirstAsk(i: nat, n: nat): Creator { if i < n then Asking(i) else Finished }

  function FirstFinish(n: nat, total: nat): Finalizer { if n < total then Collecting(n) else Finishing(0) }

  function Start(c: Config, organized: bool): State {
    State(FirstAsk(0, |c.needs|), Ready, seq(|c.needs|, _ => Uncreated), seq(c.vms, _ => true), FirstFinish(0, |c.needs|),
          if organized then Idle else Absent, seq(c.vms, _ => 0.0), seq(c.vms, _ => 0.0))
  }

  ghost predicate Shape(c: Config, s: State) {
    && c.Valid()
    && |s.tasks| == |c.needs| && |s.listening| == |s.memory| == |s.net| == c.vms
    && (!s.creator.Finished? ==> s.creator.i < |s.tasks|)
    && (s.creator.Creating? || s.creator.Charging? ==> s.creator.home < c.vms)
    && (s.balancer.Answering? ==> s.balancer.home < c.vms)
    && (s.finalizer.Finishing? ==> s.finalizer.v < c.vms)
    && (s.organizer.Moving? ==> s.organizer.vm < c.vms)
    && forall i :: 0 <= i < |s.tasks| ==>
         match s.tasks[i]
         case Uncreated => true
         case Working(home, step) => home < c.vms && step <= c.work[i].Doable()
         case Releasing(home) => home < c.vms && c.work[i].Suffices()
         case Exited(home) => home < c.vms && c.work[i].Suffices()
  }

  /** Task `i` has left its work loop and waits to send fin. */
  predicate SendsFin(c: Config, s: State, i: nat)
    requires |c.work| == |s.tasks|
  {
    i < |s.tasks| && s.tasks[i].Working? && s.tasks[i].step == c.work[i].steps
  }

  ghost predicate Enabled(c: Config, s: State, e: Event)
    requires Shape(c, s)
  {
    match e
    case Ask(home) => s.creator.Asking? && s.balancer.Ready? && home < c.vms
    case Answer => s.balancer.Answering? && s.creator.Waiting?
    case Create => s.creator.Creating?
    case Charge => s.creator.Charging?
    case Act(i) =>
      && i < |s.tasks| && s.tasks[i].Working? && s.tasks[i].step < c.work[i].Doable()
      && (var a := ActionAt(c.work[i], s.tasks[i].step); a.Send? ==> s.listening[a.target])
    case Fin(i) => SendsFin(c, s, i) && s.finalizer.Collecting?
    case Release(i) => i < |s.tasks| && s.tasks[i].Releasing?
    case FinishListener => s.finalizer.Finishing? && s.listening[s.finalizer.v]
    case FinishBalancer => s.finalizer.FinishingBalancer? && s.balancer.Ready?
    case Kill => s.finalizer.Killing?
    case StartMove(vm) => s.organizer.Idle? && vm < c.vms
    case EndMove => s.organizer.Moving? && s.listening[s.organizer.vm]
  }

  ghost function Apply(c: Config, s: State, e: Event): State
    requires Shape(c, s) && Enabled(c, s, e)
  {
    match e
    case Ask(home) => s.(creator := Waiting(s.creator.i), balancer := Answering(home))
    case Answer => s.(creator := Creating(s.creator.i, s.balancer.home), balancer := Ready)
    case Create =>
      var i, home := s.creator.i, s.creator.home;
      s.(creator := Charging(i, home), tasks := s.tasks[i := Working(home, 0)])
    case Charge =>
      var i, home := s.creator.i, s.creator.home;
      s.(creator := FirstAsk(i + 1, |s.tasks|),
         memory := s.memory[home := c.needs[i].memory + s.memory[home]],
         net := s.net[home := c.needs[i].net + s.net[home]])
    case Act(i) => s.(tasks := s.tasks[i := Working(s.tasks[i].home, s.tasks[i].step + 1)])
    case Fin(i) =>
      s.(tasks := s.tasks[i := Releasing(s.tasks[i].home)], finalizer := FirstFinish(s.finalizer.n + 1, |s.tasks|))
    case Release(i) =>
      var home := s.tasks[i].home;
      s.(tasks := s.tasks[i := Exited(home)],
         memory := s.memory[home := -c.needs[i].memory + s.memory[home]],
         net := s.net[home := -c.needs[i].net + s.net[home]])
    case FinishListener =>
      var v := s.finalizer.v;
      s.(listening := s.listening[v := false], finalizer := if v + 1 < c.vms then Finishing(v + 1) else FinishingBalancer)
    case FinishBalancer => s.(balancer := Stopped, finalizer := Killing)
    case Kill => s.(finalizer := Over, organizer := if s.organizer.Absent? then Absent else Killed)
    case StartMove(vm) => s.(organizer := Moving(vm))
    case EndMove => s.(organizer := Idle)
  }

  lemma StepKeepsShape(c: Config, s: State, e: Event)
    requires Shape(c, s) && Enabled(c, s, e)
    ensures Shape(c, Apply(c, s, e))
  {
  }

  /** A task that has sent its fin message. */
  predicate Done(t: Task) { t.Releasing? || t.Exited? }

  function DoneCount(tasks: seq<Task>): nat {
    if tasks == [] then 0 else DoneCount(tasks[..|tasks| - 1]) + if Done(tasks[|tasks| - 1]) then 1 else 0
  }

  /** Processes that exist: all below this number. */
  function Created(s: State): nat {
    match s.creator
    case Finished => |s.tasks|
    case Charging(i, _) => i + 1
    case _ => s.creator.i
  }

  /** What ties the processes together. */
  ghost predicate Inv(c: Config, s: State) {
    && Shape(c, s)
    && (forall i :: 0 <= i < |s.tasks| ==> (s.tasks[i].Uncreated? <==> i >= Created(s)))
    && (s.balancer.Answering? <==> s.creator.Waiting?)
    && (match s.finalizer
        case Collecting(n) => n == DoneCount(s.tasks) < |s.tasks|
        case _ => DoneCount(s.tasks) == |s.tasks|)
    && (forall v :: 0 <= v < c.vms ==>
          (s.listening[v] <==> s.finalizer.Collecting? || (s.finalizer.Finishing? && v >= s.finalizer.v)))
    && (s.balancer.Stopped? <==> s.finalizer.Killing? || s.finalizer.Over?)
    && (s.organizer.Killed? ==> s.finalizer.Over?)
    && (s.finalizer.Over? ==> s.organizer.Killed? || s.organizer.Absent?)
  }

  lemma {:induction false} DoneCountBound(tasks: seq<Task>)
    ensures DoneCount(tasks) <= |tasks|
    ensures DoneCount(tasks) == |tasks| <==> forall i :: 0 <= i < |tasks| ==> Done(tasks[i])
  {
    if tasks != [] {
      DoneCountBound(tasks[..|tasks| - 1]);
    }
  }

  lemma {:induction false} DoneCountUpdate(tasks: seq<Task>, i: nat, t: Task)
    requires i < |tasks|
    ensures DoneCount(tasks[i := t])
         == DoneCount(tasks) - (if Done(tasks[i]) then 1 else 0) + if Done(t) then 1 else 0
  {
    var n := |tasks| - 1;
    if i < n {
      DoneCountUpdate(tasks[..n], i, t);
      assert tasks[i := t][..n] == tasks[..n][i := t];
    } else {
      assert tasks[i := t][..n] == tasks[..n];
    }
  }

  lemma {:induction false} NoneDone(tasks: seq<Task>)
    requires forall i :: 0 <= i < |tasks| ==> tasks[i].Uncreated?
    ensures DoneCount(tasks) == 0
  {
    if tasks != [] { NoneDone(tasks[..|tasks| - 1]); }
  }

  lemma StartInv(c: Config, organized: bool)
    requires c.Valid()
    ensures Inv(c, Start(c, organized))
  {
    NoneDone(Start(c, organized).tasks);
  }

  lemma CreatorStepKeepsInv(c: Config, s: State, e: Event)
    requires Inv(c, s) && Enabled(c, s, e) && (e.Ask? || e.Answer? || e.Create? || e.Charge?)
    ensures Inv(c, Apply(c, s, e))
  {
    DoneCountBound(s.tasks);
    if e.Create? {
      DoneCountUpdate(s.tasks, s.creator.i, Working(s.creator.home, 0));
    }
  }

  lemma WorkStepKeepsInv(c: Config, s: State, e: Event)
    requires Inv(c, s) && Enabled(c, s, e) && (e.Act? || e.Release?)
    ensures Inv(c, Apply(c, s, e))
  {
    DoneCountUpdate(s.tasks, e.i, Apply(c, s, e).tasks[e.i]);
  }

  lemma FinKeepsInv(c: Config, s: State, e: Event)
    requires Inv(c, s) && Enabled(c, s, e) && e.Fin?
    ensures Inv(c, Apply(c, s, e))
  {
    DoneCountBound(Apply(c, s, e).tasks);
    DoneCountUpdate(s.tasks, e.i, Apply(c, s, e).tasks[e.i]);
  }

  lemma OtherStepKeepsInv(c: Config, s: State, e: Event)
    requires Inv(c, s) && Enabled(c, s, e)
    requires e.FinishListener? || e.FinishBalancer? || e.Kill? || e.StartMove? || e.EndMove?
    ensures Inv(c, Apply(c, s, e))
  {
  }

  lemma StepKeepsInv(c: Config, s: State, e: Event)
    requires Inv(c, s) && Enabled(c, s, e)
    ensures Inv(c, Apply(c, s, e))
  {
    if e.Ask? || e.Answer? || e.Create? || e.Charge? {
      CreatorStepKeepsInv(c, s, e);
    } else if e.Act? || e.Release? {
      WorkStepKeepsInv(c, s, e);
    } else if e.Fin? {
      FinKeepsInv(c, s, e);
    } else {
      OtherStepKeepsInv(c, s, e);
    }
  }

  /** The events can happen one after the other, and where they lead. */
  ghost predicate Possible(c: Config, s: State, events: seq<Event>)
    requires Shape(c, s)
    decreases |events|
  {
    || events == []
    || (Enabled(c, s, events[0]) && (StepKeepsShape(c, s, events[0]); Possible(c, Apply(c, s, events[0]), events[1..])))
  }

  ghost function Run(c: Config, s: State, events: seq<Event>): State
    requires Shape(c, s) && Possible(c, s, events)
    decreases |events|
  {
    if events == [] then s else (StepKeepsShape(c, s, events[0]); Run(c, Apply(c, s, events[0]), events[1..]))
  }

  lemma {:induction false} RunKeepsInv(c: Config, s: State, events: seq<Event>)
    requires Inv(c, s) && Possible(c, s, events)
    ensures Inv(c, Run(c, s, events))
    decreases |events|
  {
    if events != [] {
      StepKeepsInv(c, s, events[0]);
      RunKeepsInv(c, Apply(c, s, events[0]), events[1..]);
    }
  }
}
