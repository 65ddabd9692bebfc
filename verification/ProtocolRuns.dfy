/** What holds in every interleaving of a simulation's processes: finalization is safe, and every run ends. */
module ProtocolRuns {
  import opened WorkLoop
  import opened Protocol

  /** A state some run from the start leads to. */
  ghost predicate Reachable(c: Config, organized: bool, events: seq<Event>, s: State) {
    && c.Valid()
    && (StartShape(c, organized); Possible(c, Start(c, organized), events))
    && s == Run(c, Start(c, organized), events)
  }

  lemma StartShape(c: Config, organized: bool)
    requires c.Valid()
    ensures Shape(c, Start(c, organized))
  {
    StartInv(c, organized);
  }

  lemma ReachableInv(c: Config, organized: bool, events: seq<Event>, s: State)
    requires Reachable(c, organized, events, s)
    ensures Inv(c, s)
  {
    StartInv(c, organized);
    RunKeepsInv(c, Start(c, organized), events);
  }

  /** Once any listener has taken "finish", every task process has done all its sends: none is left that could want to send. */
  lemma FinishComesLast(c: Config, organized: bool, events: seq<Event>, s: State, v: nat, i: nat)
    requires Reachable(c, organized, events, s) && Shape(c, s) && v < c.vms && !s.listening[v] && i < |s.tasks|
    ensures Done(s.tasks[i])
  {
    ReachableInv(c, organized, events, s);
    DoneCountBound(s.tasks);
  }

  /** The load balancer takes its terminating request only when every process has been created, so every placement request was
      answered; and it is then ready to take it at once. */
  lemma BalancerIsAskedNoMore(c: Config, organized: bool, events: seq<Event>, s: State)
    requires Reachable(c, organized, events, s)
    requires s.finalizer.FinishingBalancer? || s.balancer.Stopped?
    ensures (s.creator.Charging? && s.creator.i == |s.tasks| - 1) || s.creator.Finished?
    ensures s.finalizer.FinishingBalancer? ==> s.balancer.Ready?
  {
    ReachableInv(c, organized, events, s);
    DoneCountBound(s.tasks);
    forall i | Created(s) <= i < |s.tasks| ensures s.tasks[i].Uncreated? {}
  }

  /** Who waits for a receiver that has stopped for good. */
  datatype Sender = TaskProcess(i: nat) | CreateTasks | GetFinalize | OrganizationManager

  ghost predicate Stuck(c: Config, s: State, p: Sender)
    requires Shape(c, s)
  {
    match p
    case TaskProcess(i) =>
      && i < |s.tasks| && s.tasks[i].Working?
      && (if s.tasks[i].step == c.work[i].steps then !s.finalizer.Collecting?
          else s.tasks[i].step < c.work[i].Doable()
               && (var a := ActionAt(c.work[i], s.tasks[i].step); a.Send? && !s.listening[a.target]))
    case CreateTasks => s.creator.Asking? && s.balancer.Stopped?
    case GetFinalize =>
      (s.finalizer.Finishing? && !s.listening[s.finalizer.v]) || (s.finalizer.FinishingBalancer? && s.balancer.Stopped?)
    case OrganizationManager => s.organizer.Moving? && !s.listening[s.organizer.vm]
  }

  /** Only the organizer can ever be left sending to a stopped receiver. */
  lemma OnlyOrganizerIsStuck(c: Config, organized: bool, events: seq<Event>, s: State, p: Sender)
    requires Reachable(c, organized, events, s) && Shape(c, s) && Stuck(c, s, p)
    ensures p == OrganizationManager
  {
    ReachableInv(c, organized, events, s);
    DoneCountBound(s.tasks);
    if p == CreateTasks {
      BalancerIsAskedNoMore(c, organized, events, s);
    }
  }

  function CreatorLeft(s: State): nat
    requires !s.creator.Finished? ==> s.creator.i < |s.tasks|
  {
    match s.creator
    case Asking(i) => 4 * (|s.tasks| - i)
    case Waiting(i) => 4 * (|s.tasks| - i) - 1
    case Creating(i, _) => 4 * (|s.tasks| - i) - 2
    case Charging(i, _) => 4 * (|s.tasks| - i) - 3
    case Finished => 0
  }

  function TaskLeft(w: Params, t: Task): nat
    requires t.Working? ==> t.step <= w.steps
  {
    match t
    case Uncreated => w.steps + 2
    case Working(_, step) => w.steps - step + 2
    case Releasing(_) => 1
    case Exited(_) => 0
  }

  ghost function TasksLeft(c: Config, s: State, k: nat): nat
    requires Shape(c, s) && k <= |s.tasks|
  {
    if k == 0 then 0 else TasksLeft(c, s, k - 1) + TaskLeft(c.work[k - 1], s.tasks[k - 1])
  }

  function FinalizerLeft(c: Config, s: State): nat
    requires s.finalizer.Finishing? ==> s.finalizer.v < c.vms
  {
    match s.finalizer
    case Collecting(_) => c.vms + 2
    case Finishing(v) => c.vms - v + 2
    case FinishingBalancer => 2
    case Killing => 1
    case Over => 0
  }

  /** Steps of all processes but the organizer that are still to come. */
  ghost function StepsLeft(c: Config, s: State): nat
    requires Shape(c, s)
  {
    CreatorLeft(s) + TasksLeft(c, s, |s.tasks|) + FinalizerLeft(c, s)
  }

  predicate Organizes(e: Event) { e.StartMove? || e.EndMove? }

  lemma {:induction false} TasksLeftUpdate(c: Config, s: State, s': State, i: nat, k: nat)
    requires Shape(c, s) && Shape(c, s') && i < |s.tasks| && k <= |s.tasks|
    requires s'.tasks == s.tasks[i := s'.tasks[i]]
    ensures TasksLeft(c, s', k) - TasksLeft(c, s, k)
         == if i < k then TaskLeft(c.work[i], s'.tasks[i]) - TaskLeft(c.work[i], s.tasks[i]) else 0
  {
    if k > 0 { TasksLeftUpdate(c, s, s', i, k - 1); }
  }

  lemma {:induction false} TasksLeftSame(c: Config, s: State, s': State, k: nat)
    requires Shape(c, s) && Shape(c, s') && s'.tasks == s.tasks && k <= |s.tasks|
    ensures TasksLeft(c, s', k) == TasksLeft(c, s, k)
  {
    if k > 0 { TasksLeftSame(c, s, s', k - 1); }
  }

  lemma CreatorStepCounts(c: Config, s: State, e: Event)
    requires Inv(c, s) && Enabled(c, s, e) && (e.Ask? || e.Answer? || e.Charge?)
    ensures CreatorLeft(Apply(c, s, e)) == CreatorLeft(s) - 1
    ensures FinalizerLeft(c, Apply(c, s, e)) == FinalizerLeft(c, s)
    ensures Apply(c, s, e).tasks == s.tasks
  {
  }

  lemma FinalizerStepCounts(c: Config, s: State, e: Event)
    requires Inv(c, s) && Enabled(c, s, e) && (e.FinishListener? || e.FinishBalancer? || e.Kill?)
    ensures CreatorLeft(Apply(c, s, e)) == CreatorLeft(s)
    ensures FinalizerLeft(c, Apply(c, s, e)) == FinalizerLeft(c, s) - 1
    ensures Apply(c, s, e).tasks == s.tasks
  {
  }

  /** Creating a task is a step of the creator's. */
  lemma CreateCounts(c: Config, s: State, e: Event)
    requires Inv(c, s) && Enabled(c, s, e) && e.Create?
    ensures Shape(c, Apply(c, s, e))
    ensures StepsLeft(c, Apply(c, s, e)) == StepsLeft(c, s) - 1
  {
    StepKeepsShape(c, s, e);
    TasksLeftUpdate(c, s, Apply(c, s, e), s.creator.i, |s.tasks|);
  }

  lemma TaskStepCounts(c: Config, s: State, e: Event)
    requires Inv(c, s) && Enabled(c, s, e) && (e.Act? || e.Fin? || e.Release?)
    ensures Shape(c, Apply(c, s, e))
    ensures StepsLeft(c, Apply(c, s, e)) == StepsLeft(c, s) - 1
  {
    StepKeepsShape(c, s, e);
    TasksLeftUpdate(c, s, Apply(c, s, e), e.i, |s.tasks|);
  }

  /** Every step but the organizer's brings the end nearer by exactly one; the organizer's do not move it. */
  lemma StepsCountDown(c: Config, s: State, e: Event)
    requires Inv(c, s) && Enabled(c, s, e)
    ensures Shape(c, Apply(c, s, e))
    ensures StepsLeft(c, Apply(c, s, e)) == StepsLeft(c, s) - if Organizes(e) then 0 else 1
  {
    StepKeepsShape(c, s, e);
    if e.Create? {
      CreateCounts(c, s, e);
    } else if e.Act? || e.Fin? || e.Release? {
      TaskStepCounts(c, s, e);
    } else {
      TasksLeftSame(c, s, Apply(c, s, e), |s.tasks|);
      if e.Ask? || e.Answer? || e.Charge? {
        CreatorStepCounts(c, s, e);
      } else if !Organizes(e) {
        FinalizerStepCounts(c, s, e);
      }
    }
  }

  /** The end: everything is over and the organizer, if there is one, has been killed. */
  ghost predicate Terminated(s: State) {
    && s.creator.Finished? && s.balancer.Stopped? && s.finalizer.Over?
    && (forall i :: 0 <= i < |s.tasks| ==> s.tasks[i].Exited?)
    && (forall v :: 0 <= v < |s.listening| ==> !s.listening[v])
    && (s.organizer.Absent? || s.organizer.Killed?)
  }

  lemma {:induction false} SomeTaskLeft(c: Config, s: State, k: nat) returns (i: nat)
    requires Shape(c, s) && k <= |s.tasks| && TasksLeft(c, s, k) > 0
    ensures i < k && !s.tasks[i].Exited?
  {
    if TaskLeft(c.work[k - 1], s.tasks[k - 1]) > 0 {
      i := k - 1;
    } else {
      i := SomeTaskLeft(c, s, k - 1);
    }
  }

  lemma {:induction false} NoTaskLeft(c: Config, s: State, k: nat, i: nat)
    requires Shape(c, s) && i < k <= |s.tasks| && TasksLeft(c, s, k) == 0
    ensures s.tasks[i].Exited?
  {
    if i < k - 1 { NoTaskLeft(c, s, k - 1, i); }
  }

  /** A step of the creator is possible unless it has finished. */
  lemma CreatorCanStep(c: Config, s: State) returns (e: Event)
    requires Inv(c, s) && !s.creator.Finished?
    ensures Enabled(c, s, e) && !Organizes(e)
  {
    DoneCountBound(s.tasks);
    match s.creator {
      case Asking(i) =>
        assert s.tasks[i].Uncreated?;
        e := Ask(0);
      case Waiting(_) => e := Answer;
      case Creating(_, _) => e := Create;
      case Charging(_, _) => e := Charge;
    }
  }

  lemma TaskCanStep(c: Config, s: State, i: nat) returns (e: Event)
    requires Inv(c, s) && c.WorkEnds() && s.creator.Finished? && i < |s.tasks| && !s.tasks[i].Exited?
    ensures Enabled(c, s, e) && !Organizes(e)
  {
    DoneCountBound(s.tasks);
    assert !s.tasks[i].Uncreated?;
    if s.tasks[i].Releasing? {
      e := Release(i);
    } else if s.tasks[i].step == c.work[i].steps {
      e := Fin(i);
    } else {
      e := Act(i);
    }
  }

  lemma FinalizerCanStep(c: Config, s: State) returns (e: Event)
    requires Inv(c, s) && s.creator.Finished? && !s.finalizer.Over? && forall i :: 0 <= i < |s.tasks| ==> s.tasks[i].Exited?
    ensures Enabled(c, s, e) && !Organizes(e)
  {
    DoneCountBound(s.tasks);
    match s.finalizer {
      case Finishing(_) => e := FinishListener;
      case FinishingBalancer => e := FinishBalancer;
      case Killing => e := Kill;
    }
  }

  lemma StepOrEnd(c: Config, s: State)
    requires Inv(c, s) && c.WorkEnds()
    ensures StepsLeft(c, s) > 0 ==> exists e :: Enabled(c, s, e) && !Organizes(e)
    ensures StepsLeft(c, s) == 0 ==> Terminated(s)
  {
    if !s.creator.Finished? {
      var e := CreatorCanStep(c, s);
    } else if TasksLeft(c, s, |s.tasks|) > 0 {
      var i := SomeTaskLeft(c, s, |s.tasks|);
      var e := TaskCanStep(c, s, i);
    } else {
      forall i | 0 <= i < |s.tasks| ensures s.tasks[i].Exited? {
        NoTaskLeft(c, s, |s.tasks|, i);
      }
      if !s.finalizer.Over? {
        var e := FinalizerCanStep(c, s);
      }
    }
  }

  /** No deadlock, if every work loop ends: as long as steps are left, some process other than the organizer can take one; when
      none is left, the run is over. */
  lemma NoDeadlock(c: Config, organized: bool, events: seq<Event>, s: State)
    requires Reachable(c, organized, events, s) && Shape(c, s) && c.WorkEnds()
    ensures StepsLeft(c, s) > 0 ==> exists e :: Enabled(c, s, e) && !Organizes(e)
    ensures StepsLeft(c, s) == 0 ==> Terminated(s)
  {
    ReachableInv(c, organized, events, s);
    StepOrEnd(c, s);
  }

  function OthersSteps(events: seq<Event>): nat {
    if events == [] then 0 else (if Organizes(events[0]) then 0 else 1) + OthersSteps(events[1..])
  }

  lemma {:induction false} RunCountsDown(c: Config, s: State, events: seq<Event>)
    requires Inv(c, s) && Possible(c, s, events)
    ensures Shape(c, Run(c, s, events)) && OthersSteps(events) + StepsLeft(c, Run(c, s, events)) == StepsLeft(c, s)
    decreases |events|
  {
    if events != [] {
      StepsCountDown(c, s, events[0]);
      StepKeepsInv(c, s, events[0]);
      RunCountsDown(c, Apply(c, s, events[0]), events[1..]);
    }
  }

  /** In every interleaving the processes other than the organizer take at most as many steps as there are to take, and when these
      are taken everything has terminated. */
  lemma RunsAreBounded(c: Config, organized: bool, events: seq<Event>, s: State)
    requires Reachable(c, organized, events, s) && Shape(c, s) && Shape(c, Start(c, organized))
    ensures OthersSteps(events) <= StepsLeft(c, Start(c, organized))
    ensures OthersSteps(events) == StepsLeft(c, Start(c, organized)) ==> Terminated(s)
  {
    StartInv(c, organized);
    RunCountsDown(c, Start(c, organized), events);
    if StepsLeft(c, s) == 0 {
      forall i | 0 <= i < |s.tasks| ensures c.work[i].Suffices() {
        NoTaskLeft(c, s, |s.tasks|, i);
      }
      NoDeadlock(c, organized, events, s);
    }
  }

  /** `more` leads on to the end without any step of the organizer, which may be blocked or make moves forever. */
  ghost predicate EndsBy(c: Config, s: State, more: seq<Event>)
    requires Shape(c, s)
  {
    && Possible(c, s, more) && (forall i :: 0 <= i < |more| ==> !Organizes(more[i]))
    && Terminated(Run(c, s, more))
  }

  lemma {:induction false} CanEnd(c: Config, s: State) returns (more: seq<Event>)
    requires Inv(c, s) && c.WorkEnds()
    ensures EndsBy(c, s, more)
    decreases StepsLeft(c, s)
  {
    StepOrEnd(c, s);
    if StepsLeft(c, s) == 0 {
      more := [];
    } else {
      var e :| Enabled(c, s, e) && !Organizes(e);
      StepsCountDown(c, s, e);
      StepKeepsInv(c, s, e);
      var rest := CanEnd(c, Apply(c, s, e));
      more := [e] + rest;
      assert more[1..] == rest;
    }
  }

  lemma EndedWorkEnds(c: Config, s: State)
    requires Inv(c, s) && Terminated(s)
    ensures c.WorkEnds()
  {
    forall i | 0 <= i < |c.work| ensures c.work[i].Suffices() {
      assert s.tasks[i].Exited?;
    }
  }

  /** From any state of any run the simulation can end, also without the organizer's help, if and only if the work loop of every
      process ends. Otherwise no run ever terminates. */
  lemma CanEndIff(c: Config, organized: bool, events: seq<Event>, s: State)
    requires Reachable(c, organized, events, s) && Shape(c, s)
    ensures (exists more :: EndsBy(c, s, more)) <==> c.WorkEnds()
    ensures Terminated(s) ==> c.WorkEnds()
  {
    ReachableInv(c, organized, events, s);
    if c.WorkEnds() {
      var more := CanEnd(c, s);
    }
    forall more | EndsBy(c, s, more) ensures c.WorkEnds() {
      RunKeepsInv(c, s, more);
      EndedWorkEnds(c, Run(c, s, more));
    }
    if Terminated(s) { EndedWorkEnds(c, s); }
  }

  /** With the numbers from `main`, and at least one process: if and only if there are no steps, the ratio is 0 or it gives at least
      one computation. */
  lemma SimulationCanEndIff(c: Config, ratio: real, organized: bool, events: seq<Event>, s: State)
    requires |c.work| >= 1 && forall i :: 0 <= i < |c.work| ==> FromMain(c.work[i], ratio) && c.work[i].steps == StepsOf(c.vms)
    requires Reachable(c, organized, events, s) && Shape(c, s)
    ensures (exists more :: EndsBy(c, s, more))
       <==> StepsOf(c.vms) == 0 || ratio == 0.0 || ratio * StepsOf(c.vms) as real >= 1.0
  {
    CanEndIff(c, organized, events, s);
    SameSizesWorkEnds(c, ratio);
  }

  lemma SameSizesWorkEnds(c: Config, ratio: real)
    requires |c.work| >= 1 && forall i :: 0 <= i < |c.work| ==> FromMain(c.work[i], ratio) && c.work[i].steps == StepsOf(c.vms)
    ensures c.WorkEnds() <==> StepsOf(c.vms) == 0 || ratio == 0.0 || ratio * StepsOf(c.vms) as real >= 1.0
  {
    assert FromMain(c.work[0], ratio);
    var steps := StepsOf(c.vms);
    MainTerminatesIff(ratio, steps);
    forall i | 0 <= i < |c.work| ensures c.work[i].Suffices() <==> CompSize(ratio, steps) + CommSize(ratio, steps) >= steps {
      assert FromMain(c.work[i], ratio);
    }
  }

  /** An organizer that sends to a stopped listener stays there, whatever the others do, until it is killed. */
  lemma BlockedUntilKilled(c: Config, organized: bool, events: seq<Event>, s: State, e: Event)
    requires Reachable(c, organized, events, s) && Shape(c, s) && Enabled(c, s, e)
    requires s.organizer.Moving? && !s.listening[s.organizer.vm]
    ensures !e.Kill? ==> Apply(c, s, e).organizer == s.organizer && Apply(c, s, e).listening[s.organizer.vm] == false
    ensures e.Kill? ==> Apply(c, s, e).organizer.Killed?
  {
    ReachableInv(c, organized, events, s);
  }

  /** And that can happen: with one VM and no process, the move begins before the listener is stopped. */
  lemma OrganizerCanBlock(c: Config) returns (s: State)
    requires c == Config(1, [], [])
    ensures Reachable(c, true, [StartMove(0), FinishListener], s)
    ensures s.organizer == Moving(0) && s.listening == [false] && s.finalizer == FinishingBalancer
  {
    StartShape(c, true);
    var s0 := Start(c, true);
    var s1 := Apply(c, s0, StartMove(0));
    s := Apply(c, s1, FinishListener);
    assert s0.listening == [true];
    assert [StartMove(0), FinishListener][1..] == [FinishListener] && [FinishListener][1..] == [];
    assert Possible(c, s, []) && Run(c, s, []) == s;
    assert Possible(c, s1, [FinishListener]) && Run(c, s1, [FinishListener]) == s;
  }
}
