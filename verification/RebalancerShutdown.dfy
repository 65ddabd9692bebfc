/** Shutdown of the rebalancer (simgrid/simgrid-project/hpvc.c:531-643, 933-937): the scanning process and the finalizer share
    the flag `finish` under the semaphore `finish_sem`, in every interleaving of their steps. */
module RebalancerShutdown {

  datatype Scanner = Sleeping | Holding | Scanning(left: nat) | Stopped
  datatype Finalizer = Running | Entered | Raised | Done

  datatype State = State(scanner: Scanner, finalizer: Finalizer, sem: nat, finish: bool)

  datatype Event =
    | ScanAcquire | ScanLook(pms: nat) | ScanVisit(migrates: bool) | ScanRelease
    | FinAcquire | FinRaise | FinRelease

  const START := State(Sleeping, Running, 1, false)

  predicate Enabled(s: State, e: Event) {
    match e
    case ScanAcquire => s.scanner.Sleeping? && s.sem > 0
    case ScanLook(_) => s.scanner.Holding?
    case ScanVisit(_) => s.scanner.Scanning? && s.scanner.left > 0
    case ScanRelease => s.scanner.Scanning? && s.scanner.left == 0
    case FinAcquire => s.finalizer.Running? && s.sem > 0
    case FinRaise => s.finalizer.Entered?
    case FinRelease => s.finalizer.Raised?
  }

  function Apply(s: State, e: Event): State
    requires Enabled(s, e)
  {
    match e
    case ScanAcquire => s.(scanner := Holding, sem := s.sem - 1)
    case ScanLook(pms) => if s.finish then s.(scanner := Stopped, sem := s.sem + 1) else s.(scanner := Scanning(pms))
    case ScanVisit(_) => s.(scanner := Scanning(s.scanner.left - 1))
    case ScanRelease => s.(scanner := Sleeping, sem := s.sem + 1)
    case FinAcquire => s.(finalizer := Entered, sem := s.sem - 1)
    case FinRaise => s.(finalizer := Raised, finish := true)
    case FinRelease => s.(finalizer := Done, sem := s.sem + 1)
  }

  /** A run of the two processes from the start. */
  ghost predicate Run(states: seq<State>, events: seq<Event>) {
    && |states| == |events| + 1
    && states[0] == START
    && forall i :: 0 <= i < |events| ==> Enabled(states[i], events[i]) && states[i + 1] == Apply(states[i], events[i])
  }

  /** The semaphore admits one holder, and a raised flag excludes a scan. */
  ghost predicate Inv(s: State) {
    && s.sem + (if s.scanner.Holding? || s.scanner.Scanning? then 1 else 0)
             + (if s.finalizer.Entered? || s.finalizer.Raised? then 1 else 0) == 1
    && (s.finish <==> s.finalizer.Raised? || s.finalizer.Done?)
    && !(s.finish && s.scanner.Scanning?)
  }

  lemma {:induction false} RunKeepsInv(states: seq<State>, events: seq<Event>, i: nat)
    requires Run(states, events) && i < |states|
    ensures Inv(states[i])
  {
    if i > 0 {
      RunKeepsInv(states, events, i - 1);
      assert states[i - 1 + 1] == Apply(states[i - 1], events[i - 1]);
    }
  }

  lemma {:induction false} FinishStays(states: seq<State>, events: seq<Event>, i: nat, j: nat)
    requires Run(states, events) && i <= j < |states| && states[i].finish
    ensures states[j].finish
    decreases j
  {
    if i < j {
      FinishStays(states, events, i, j - 1);
      assert states[j - 1 + 1] == Apply(states[j - 1], events[j - 1]);
    }
  }

  /** Once the flag is raised no migration ever starts, in any run and at any later point. */
  lemma NoMigrationAfterFinish(states: seq<State>, events: seq<Event>, i: nat, j: nat)
    requires Run(states, events) && i <= j < |events| && states[i].finish
    ensures !events[j].ScanVisit?
  {
    FinishStays(states, events, i, j);
    RunKeepsInv(states, events, j);
  }

  /** Steps the scanner still has before it must wait or stop; the finalizer can always proceed when the scanner cannot. */
  function StepsLeft(s: State): nat {
    (match s.scanner case Sleeping => 2 case Holding => 1 case Scanning(left) => left + 3 case Stopped => 0)
    + (match s.finalizer case Running => 3 case Entered => 2 case Raised => 1 case Done => 0)
  }

  /** After the flag is raised, every step brings both processes nearer to their end, and until they are there some step is
      possible: neither waits for the other forever. */
  lemma StopsAfterFinish(states: seq<State>, events: seq<Event>, i: nat)
    requires Run(states, events) && i < |states| && states[i].finish
    ensures i < |events| ==> StepsLeft(states[i + 1]) < StepsLeft(states[i])
    ensures (states[i].scanner.Stopped? && states[i].finalizer.Done?) || exists e :: Enabled(states[i], e)
  {
    RunKeepsInv(states, events, i);
    var s := states[i];
    if s.finalizer.Raised? {
      assert Enabled(s, FinRelease);
    } else if s.scanner.Sleeping? {
      assert Enabled(s, ScanAcquire);
    } else if s.scanner.Holding? {
      assert Enabled(s, ScanLook(0));
    }
  }

  function Visits(events: seq<Event>): nat {
    if events == [] then 0
    else Visits(events[..|events| - 1]) + if events[|events| - 1].ScanVisit? then 1 else 0
  }

  /** Between its look at the flag and its release of the semaphore. */
  ghost predicate Unreleased(events: seq<Event>, i: nat, k: nat) {
    i < k <= |events| && forall j :: i < j < k ==> !events[j].ScanRelease?
  }

  lemma {:induction false} StillScanning(states: seq<State>, events: seq<Event>, i: nat, k: nat, pms: nat)
    requires Run(states, events) && Unreleased(events, i, k) && events[i] == ScanLook(pms) && !states[i].finish
    ensures Visits(events[i + 1..k]) <= pms && states[k].scanner == Scanning(pms - Visits(events[i + 1..k]))
    decreases k
  {
    assert states[k - 1 + 1] == Apply(states[k - 1], events[k - 1]);
    if k > i + 1 {
      StillScanning(states, events, i, k - 1, pms);
      assert events[i + 1..k][..k - 1 - (i + 1)] == events[i + 1..k - 1];
    }
  }

  /** A scan that finds the flag down makes all its visits, one for each PM, before it releases the semaphore. */
  lemma ScanVisitsAll(states: seq<State>, events: seq<Event>, i: nat, k: nat, pms: nat)
    requires Run(states, events) && Unreleased(events, i, k) && events[i] == ScanLook(pms) && !states[i].finish
    requires k < |events| && events[k] == ScanRelease
    ensures Visits(events[i + 1..k]) == pms
  {
    StillScanning(states, events, i, k, pms);
  }
}
