/**
The bounded worker pool as a transition system. One submitter, one dispatcher and one goroutine
per job share a buffered channel, a counting semaphore and a WaitGroup; every atomic action of any
of them is one `Step`. A job's `Execute` is a fixed number of atomic actions of its own, recorded in
`hist` as they happen.
*/
module Pool {
  import opened Filters
  import opened Wrappers

  const BUFFER_SLOTS := 1000

  /** How far one job has come. `Held` is the gap between the dispatcher's receive and the slot being
      acquired, `Released` the gap between `<-sem` and `wg.Done()`. */
  datatype Phase = Pending | Counted | Queued | Held | Running | Released | Done

  datatype Event = Event(job: nat, action: nat)

  datatype Main = Submitting | Waited | Closed

  /** `work[j]` is the number of atomic actions in job j's Execute. */
  datatype Config = Config(concurrency: nat, work: seq<nat>)

  datatype State = State(
    phase: seq<Phase>,
    pc: seq<nat>,
    next: nat,
    buffer: seq<nat>,
    held: Option<nat>,
    sem: nat,
    wg: nat,
    main: Main,
    dispatcherExited: bool,
    hist: seq<Event>)

  datatype Step =
    | AddCount | Send | WaitReturn | Close
    | Receive | Acquire | DispatcherExit
    | Act(j: nat) | Release(j: nat) | MarkDone(j: nat)

  function Init(c: Config): State {
    State(seq(|c.work|, _ => Pending), seq(|c.work|, _ => 0), 0, [], None, 0, 0, Submitting, false, [])
  }

  predicate Shaped(c: Config, s: State) {
    && |s.phase| == |s.pc| == |c.work|
    && (s.held.Some? ==> s.held.value < |c.work|)
    && forall i :: 0 <= i < |s.buffer| ==> s.buffer[i] < |c.work|
  }

  predicate Enabled(c: Config, s: State, step: Step)
    requires Shaped(c, s)
  {
    match step
    case AddCount => s.main.Submitting? && s.next < |s.phase| && s.phase[s.next].Pending?
    case Send => s.main.Submitting? && s.next < |s.phase| && s.phase[s.next].Counted? && |s.buffer| < BUFFER_SLOTS
    case WaitReturn => s.main.Submitting? && s.next == |s.phase| && s.wg == 0
    case Close => s.main.Waited?
    case Receive => !s.dispatcherExited && s.held.None? && s.buffer != []
    case Acquire => s.held.Some? && s.sem < c.concurrency
    case DispatcherExit => !s.dispatcherExited && s.held.None? && s.buffer == [] && s.main.Closed?
    case Act(j) => j < |s.phase| && s.phase[j].Running? && s.pc[j] < c.work[j]
    case Release(j) => j < |s.phase| && s.phase[j].Running? && s.pc[j] == c.work[j] && 0 < s.sem
    case MarkDone(j) => j < |s.phase| && s.phase[j].Released? && 0 < s.wg
  }

  function Next(c: Config, s: State, step: Step): State
    requires Shaped(c, s) && Enabled(c, s, step)
  {
    match step
    case AddCount => s.(phase := s.phase[s.next := Counted], wg := s.wg + 1)
    case Send => s.(phase := s.phase[s.next := Queued], buffer := s.buffer + [s.next], next := s.next + 1)
    case WaitReturn => s.(main := Waited)
    case Close => s.(main := Closed)
    case Receive => s.(phase := s.phase[s.buffer[0] := Held], held := Some(s.buffer[0]), buffer := s.buffer[1..])
    case Acquire => s.(phase := s.phase[s.held.value := Running], held := None, sem := s.sem + 1)
    case DispatcherExit => s.(dispatcherExited := true)
    case Act(j) => s.(pc := s.pc[j := s.pc[j] + 1], hist := s.hist + [Event(j, s.pc[j])])
    case Release(j) => s.(phase := s.phase[j := Released], sem := s.sem - 1)
    case MarkDone(j) => s.(phase := s.phase[j := Done], wg := s.wg - 1)
  }

  ghost predicate Transition(c: Config, s: State, s': State) {
    Shaped(c, s) && exists step :: Enabled(c, s, step) && s' == Next(c, s, step)
  }

  /** Any schedule whatever: a finite sequence of states, each a step away from the one before. */
  ghost predicate IsRun(c: Config, run: seq<State>) {
    && run != []
    && run[0] == Init(c)
    && forall i :: 0 <= i < |run| - 1 ==> Transition(c, run[i], run[i + 1])
  }

  /** The main goroutine has returned from Close, the dispatcher is gone, and every job is done. */
  predicate Final(s: State) {
    s.main.Closed? && s.dispatcherExited && forall j :: 0 <= j < |s.phase| ==> s.phase[j].Done?
  }

  // ----- Histories -----

  /** The actions of job j in a history, in order. */
  function OfJob(h: seq<Event>, j: nat): seq<Event> {
    Filter(h, IsOfJob(j))
  }

  function IsOfJob(j: nat): Event -> bool {
    (e: Event) => e.job == j
  }

  function Actions(j: nat, k: nat): (es: seq<Event>)
    ensures |es| == k && forall i :: 0 <= i < k ==> es[i] == Event(j, i)
  {
    seq(k, i requires 0 <= i => Event(j, i))
  }

  /** Each of the n jobs ran every one of its actions exactly once and in order, and nothing else ran. */
  ghost predicate ExactlyOnce(work: seq<nat>, h: seq<Event>) {
    && (forall e :: e in h ==> e.job < |work|)
    && forall j :: 0 <= j < |work| ==> OfJob(h, j) == Actions(j, work[j])
  }

  // ----- The invariant -----

  function Slots(phase: seq<Phase>): (r: seq<nat>)
    ensures |r| == |phase| && forall i :: 0 <= i < |r| ==> r[i] == if phase[i].Running? then 1 else 0
  {
    seq(|phase|, i requires 0 <= i < |phase| => if phase[i].Running? then 1 else 0)
  }

  function InFlight(phase: seq<Phase>): (r: seq<nat>)
    ensures |r| == |phase| && forall i :: 0 <= i < |r| ==> r[i] == if phase[i].Pending? || phase[i].Done? then 0 else 1
  {
    seq(|phase|, i requires 0 <= i < |phase| => if phase[i].Pending? || phase[i].Done? then 0 else 1)
  }

  predicate BeforeRunning(p: Phase) {
    p.Pending? || p.Counted? || p.Queued? || p.Held?
  }

  /** Where each job must be, given how far the submitter and the dispatcher have come. */
  ghost predicate Placed(s: State) {
    var received := s.next - |s.buffer|;
    && 0 <= received <= s.next <= |s.phase|
    && (forall i :: 0 <= i < |s.buffer| ==> s.buffer[i] == received + i)
    && (s.held.Some? ==> s.held.value == received - 1)
    && forall j :: 0 <= j < |s.phase| ==>
        if j > s.next then s.phase[j].Pending?
        else if j == s.next then s.phase[j].Pending? || s.phase[j].Counted?
        else if j >= received then s.phase[j].Queued?
        else if s.held == Some(j) then s.phase[j].Held?
        else s.phase[j].Running? || s.phase[j].Released? || s.phase[j].Done?
  }

  ghost predicate Counters(c: Config, s: State)
    requires Shaped(c, s)
  {
    && s.sem == Sum(Slots(s.phase)) <= c.concurrency
    && s.wg == Sum(InFlight(s.phase))
    && |s.buffer| <= BUFFER_SLOTS
  }

  predicate JobProgressed(phase: Phase, pc: nat, work: nat) {
    && pc <= work
    && (BeforeRunning(phase) ==> pc == 0)
    && (phase.Released? || phase.Done? ==> pc == work)
  }

  ghost predicate Progressed(c: Config, s: State)
    requires Shaped(c, s)
  {
    && (forall j :: 0 <= j < |s.phase| ==> JobProgressed(s.phase[j], s.pc[j], c.work[j]))
    && (forall j :: 0 <= j < |s.phase| ==> OfJob(s.hist, j) == Actions(j, s.pc[j]))
    && forall e :: e in s.hist ==> e.job < |s.phase|
  }

  ghost predicate Phased(c: Config, s: State)
    requires Shaped(c, s)
  {
    && (!s.main.Submitting? ==> s.next == |s.phase| && forall j :: 0 <= j < |s.phase| ==> s.phase[j].Done?)
    && (s.dispatcherExited ==> s.main.Closed?)
    && (c.concurrency == 0 ==> forall j :: 0 <= j < |s.phase| ==> BeforeRunning(s.phase[j]))
  }

  ghost predicate Inv(c: Config, s: State) {
    Shaped(c, s) && Placed(s) && Counters(c, s) && Progressed(c, s) && Phased(c, s)
  }

  lemma InitInv(c: Config)
    ensures Inv(c, Init(c))
  {
    SumIsZero(Slots(Init(c).phase));
    SumIsZero(InFlight(Init(c).phase));
  }

  /** Job i's change of phase changes the two counted sums by what it gives or takes. */
  lemma PhaseChange(phase: seq<Phase>, i: nat, p: Phase)
    requires i < |phase|
    ensures Sum(Slots(phase[i := p])) == Sum(Slots(phase)) - Slots(phase)[i] + (if p.Running? then 1 else 0)
    ensures Sum(InFlight(phase[i := p]))
      == Sum(InFlight(phase)) - InFlight(phase)[i] + (if p.Pending? || p.Done? then 0 else 1)
  {
    SumChange(Slots(phase), Slots(phase[i := p]), i);
    SumChange(InFlight(phase), InFlight(phase[i := p]), i);
  }

  lemma StepKeepsCounters(c: Config, s: State, step: Step)
    requires Shaped(c, s) && Placed(s) && Counters(c, s) && Enabled(c, s, step)
    ensures Shaped(c, Next(c, s, step)) && Counters(c, Next(c, s, step))
  {
    match step
    case AddCount => PhaseChange(s.phase, s.next, Counted);
    case Send => PhaseChange(s.phase, s.next, Queued);
    case Receive => PhaseChange(s.phase, s.buffer[0], Held);
    case Acquire => PhaseChange(s.phase, s.held.value, Running);
    case Release(j) => PhaseChange(s.phase, j, Released);
    case MarkDone(j) => PhaseChange(s.phase, j, Done);
    case _ =>
  }

  lemma OneMoreAction(h: seq<Event>, i: nat, k: nat, j: nat, n: nat)
    requires OfJob(h, j) == Actions(j, n) && (i == j ==> k == n)
    ensures OfJob(h + [Event(i, k)], j) == Actions(j, if i == j then n + 1 else n)
  {
    FilterAppend(h, Event(i, k), IsOfJob(j));
  }

  lemma ActKeepsJobs(c: Config, s: State, i: nat)
    requires Shaped(c, s) && Progressed(c, s) && Enabled(c, s, Act(i))
    ensures var s' := Next(c, s, Act(i));
      && (forall j :: 0 <= j < |s.phase| ==> JobProgressed(s'.phase[j], s'.pc[j], c.work[j]))
      && (forall e :: e in s'.hist ==> e.job < |s.phase|)
  {
  }

  lemma ActKeepsProgress(c: Config, s: State, i: nat)
    requires Shaped(c, s) && Progressed(c, s) && Enabled(c, s, Act(i))
    ensures Shaped(c, Next(c, s, Act(i))) && Progressed(c, Next(c, s, Act(i)))
  {
    var s' := Next(c, s, Act(i));
    ActKeepsJobs(c, s, i);
    forall j | 0 <= j < |s.phase| ensures OfJob(s'.hist, j) == Actions(j, s'.pc[j]) {
      OneMoreAction(s.hist, i, s.pc[i], j, s.pc[j]);
    }
  }

  lemma StepKeepsProgress(c: Config, s: State, step: Step)
    requires Shaped(c, s) && Placed(s) && Progressed(c, s) && Enabled(c, s, step)
    ensures Shaped(c, Next(c, s, step)) && Progressed(c, Next(c, s, step))
  {
    match step
    case Act(i) => ActKeepsProgress(c, s, i);
    case AddCount =>
    case Send =>
    case Receive =>
    case Acquire =>
    case Release(j) =>
    case MarkDone(j) =>
    case _ =>
  }

  lemma StepKeepsPlaced(c: Config, s: State, step: Step)
    requires Shaped(c, s) && Placed(s) && Enabled(c, s, step)
    ensures Placed(Next(c, s, step))
  {
    match step
    case AddCount =>
    case Send =>
    case Receive =>
    case Acquire =>
    case Release(j) =>
    case MarkDone(j) =>
    case _ =>
  }

  lemma StepKeepsPhased(c: Config, s: State, step: Step)
    requires Inv(c, s) && Enabled(c, s, step)
    ensures Shaped(c, Next(c, s, step)) && Phased(c, Next(c, s, step))
  {
    if step.WaitReturn? {
      SumIsZero(InFlight(s.phase));
      forall j | 0 <= j < |s.phase| ensures s.phase[j].Done? {
        assert InFlight(s.phase)[j] == 0;
      }
    }
  }

  /** Every step of submitter, dispatcher and workers keeps the invariant. */
  lemma StepKeepsInv(c: Config, s: State, step: Step)
    requires Inv(c, s) && Enabled(c, s, step)
    ensures Inv(c, Next(c, s, step))
  {
    StepKeepsPlaced(c, s, step);
    StepKeepsCounters(c, s, step);
    StepKeepsProgress(c, s, step);
    StepKeepsPhased(c, s, step);
  }

  // ----- Termination -----

  function Rank(p: Phase): nat {
    match p
    case Pending => 6
    case Counted => 5
    case Queued => 4
    case Held => 3
    case Running => 2
    case Released => 1
    case Done => 0
  }

  function Weight(phase: Phase, pc: nat, work: nat): nat {
    Rank(phase) + (if pc <= work then work - pc else 0)
  }

  ghost function Weights(c: Config, s: State): (r: seq<nat>)
    requires Shaped(c, s)
    ensures |r| == |s.phase|
    ensures forall j :: 0 <= j < |r| ==> r[j] == Weight(s.phase[j], s.pc[j], c.work[j])
  {
    seq(|s.phase|, j requires 0 <= j < |s.phase| => Weight(s.phase[j], s.pc[j], c.work[j]))
  }

  ghost function Measure(c: Config, s: State): nat
    requires Shaped(c, s)
  {
    Sum(Weights(c, s))
    + (match s.main case Submitting => 2 case Waited => 1 case Closed => 0)
    + (if s.dispatcherExited then 0 else 1)
  }

  /** A step that moves one job forward and leaves the rest alone lowers the measure. */
  lemma JobMoved(c: Config, s: State, s': State, j: nat)
    requires Shaped(c, s) && Shaped(c, s') && j < |s.phase|
    requires s'.main == s.main && s'.dispatcherExited == s.dispatcherExited
    requires forall k :: 0 <= k < |s.phase| && k != j ==> s'.phase[k] == s.phase[k] && s'.pc[k] == s.pc[k]
    requires Weight(s'.phase[j], s'.pc[j], c.work[j]) < Weight(s.phase[j], s.pc[j], c.work[j])
    ensures Measure(c, s') < Measure(c, s)
  {
    SumChange(Weights(c, s), Weights(c, s'), j);
  }

  lemma StepKeepsShape(c: Config, s: State, step: Step)
    requires Shaped(c, s) && Enabled(c, s, step)
    ensures Shaped(c, Next(c, s, step))
  {
  }

  lemma WorkerStepDecreases(c: Config, s: State, step: Step)
    requires Shaped(c, s) && Enabled(c, s, step) && (step.Act? || step.Release? || step.MarkDone?)
    ensures Shaped(c, Next(c, s, step)) && Measure(c, Next(c, s, step)) < Measure(c, s)
  {
    JobMoved(c, s, Next(c, s, step), step.j);
  }

  lemma DispatcherStepDecreases(c: Config, s: State, step: Step)
    requires Shaped(c, s) && Placed(s) && Enabled(c, s, step) && (step.Receive? || step.Acquire?)
    ensures Shaped(c, Next(c, s, step)) && Measure(c, Next(c, s, step)) < Measure(c, s)
  {
    JobMoved(c, s, Next(c, s, step), if step.Receive? then s.buffer[0] else s.held.value);
  }

  lemma MainStepDecreases(c: Config, s: State, step: Step)
    requires Shaped(c, s) && Placed(s) && Enabled(c, s, step)
    requires step.AddCount? || step.Send? || step.WaitReturn? || step.Close? || step.DispatcherExit?
    ensures Shaped(c, Next(c, s, step)) && Measure(c, Next(c, s, step)) < Measure(c, s)
  {
    var s' := Next(c, s, step);
    if step.AddCount? || step.Send? {
      JobMoved(c, s, s', s.next);
    } else {
      assert Weights(c, s) == Weights(c, s');
    }
  }

  /** Whichever goroutine moves, the measure goes down. */
  lemma StepDecreases(c: Config, s: State, step: Step)
    requires Shaped(c, s) && Placed(s) && Enabled(c, s, step)
    ensures Shaped(c, Next(c, s, step))
    ensures Measure(c, Next(c, s, step)) < Measure(c, s)
  {
    StepKeepsShape(c, s, step);
    if step.Act? || step.Release? || step.MarkDone? {
      WorkerStepDecreases(c, s, step);
    } else if step.Receive? || step.Acquire? {
      DispatcherStepDecreases(c, s, step);
    } else {
      MainStepDecreases(c, s, step);
    }
  }

  lemma TransitionKeeps(c: Config, s: State, s': State)
    requires Inv(c, s) && Transition(c, s, s')
    ensures Inv(c, s') && Measure(c, s') < Measure(c, s)
  {
    var step :| Enabled(c, s, step) && s' == Next(c, s, step);
    StepKeepsInv(c, s, step);
    StepDecreases(c, s, step);
  }

  lemma {:induction false} RunInv(c: Config, run: seq<State>, i: nat)
    requires IsRun(c, run) && i < |run|
    ensures Inv(c, run[i])
  {
    if i == 0 {
      InitInv(c);
    } else {
      RunInv(c, run, i - 1);
      assert Transition(c, run[i - 1], run[i - 1 + 1]);
      TransitionKeeps(c, run[i - 1], run[i]);
    }
  }

  /** A schedule that has come to s. */
  ghost predicate Reaches(c: Config, run: seq<State>, s: State) {
    IsRun(c, run) && run[|run| - 1] == s
  }

  /** A schedule goes on by one step. */
  lemma RunGoesOn(c: Config, run: seq<State>, s: State, step: Step)
    requires Reaches(c, run, s) && Shaped(c, s) && Enabled(c, s, step)
    ensures Reaches(c, run + [Next(c, s, step)], Next(c, s, step)) && Inv(c, Next(c, s, step))
    ensures Measure(c, Next(c, s, step)) < Measure(c, s)
  {
    var longer := run + [Next(c, s, step)];
    forall i | 0 <= i < |longer| - 1 ensures Transition(c, longer[i], longer[i + 1]) {
      if i < |run| - 1 {
        assert Transition(c, run[i], run[i + 1]);
      }
    }
    RunInv(c, run, |run| - 1);
    TransitionKeeps(c, s, Next(c, s, step));
  }

  lemma {:induction false} InitialMeasure(work: seq<nat>, ws: seq<nat>)
    requires |ws| == |work| && forall j :: 0 <= j < |ws| ==> ws[j] == 6 + work[j]
    ensures Sum(ws) == 6 * |work| + Sum(work)
  {
    if work == [] {
    } else {
      InitialMeasure(work[1..], ws[1..]);
    }
  }

  lemma {:induction false} RunMeasure(c: Config, run: seq<State>, i: nat)
    requires IsRun(c, run) && i < |run|
    ensures Inv(c, run[i]) && i + Measure(c, run[i]) <= Measure(c, Init(c))
  {
    RunInv(c, run, i);
    if 0 == i {
    } else {
      RunMeasure(c, run, i - 1);
      assert Transition(c, run[i - 1], run[i - 1 + 1]);
      TransitionKeeps(c, run[i - 1], run[i]);
    }
  }

  /** No schedule takes more than six steps a job, one a job action, and three for the end. */
  lemma RunsAreBounded(c: Config, run: seq<State>)
    requires IsRun(c, run)
    ensures |run| - 1 <= 6 * |c.work| + Sum(c.work) + 3
  {
    RunMeasure(c, run, |run| - 1);
    InitialMeasure(c.work, Weights(c, Init(c)));
  }

  // ----- Deadlock freedom -----

  /** While anything is unfinished, some goroutine can move. */
  lemma SomeStepEnabled(c: Config, s: State) returns (step: Step)
    requires Inv(c, s) && 1 <= c.concurrency && !Final(s)
    ensures Enabled(c, s, step)
  {
    SumIsZero(Slots(s.phase));
    SumIsZero(InFlight(s.phase));
    if j :| 0 <= j < |s.phase| && s.phase[j].Released? {
      assert InFlight(s.phase)[j] == 1;
      return MarkDone(j);
    } else if j :| 0 <= j < |s.phase| && s.phase[j].Running? {
      assert Slots(s.phase)[j] == 1;
      return if s.pc[j] < c.work[j] then Act(j) else Release(j);
    } else if s.held.Some? {
      return Acquire;
    } else if s.buffer != [] {
      return Receive;
    } else if s.next < |s.phase| {
      assert s.main.Submitting?;
      return if s.phase[s.next].Pending? then AddCount else Send;
    } else {
      assert forall k :: 0 <= k < |s.phase| ==> s.phase[k].Done?;
      return if s.main.Submitting? then WaitReturn else if s.main.Waited? then Close else DispatcherExit;
    }
  }

  lemma AllDoneExactlyOnce(c: Config, s: State)
    requires Inv(c, s) && forall j :: 0 <= j < |s.phase| ==> s.phase[j].Done?
    ensures s.pc == c.work && ExactlyOnce(c.work, s.hist)
  {
    assert forall j :: 0 <= j < |s.phase| ==> s.pc[j] == c.work[j];
  }

  lemma WaitingJobs(s: State)
    requires Placed(s)
    ensures s.buffer != [] ==> s.phase[s.buffer[0]].Queued?
    ensures s.held.Some? ==> s.phase[s.held.value].Held?
  {
  }

  ghost predicate Stuck(c: Config, s: State)
    requires Shaped(c, s)
  {
    forall step :: !Enabled(c, s, step)
  }

  /** Every schedule that cannot go on has run each submitted job exactly once, and left nothing behind:
      the channel is empty, all slots are free, the count is zero and the dispatcher has gone. */
  lemma MaximalRunsFinish(c: Config, run: seq<State>)
    requires IsRun(c, run) && 1 <= c.concurrency
    ensures var s := run[|run| - 1]; Shaped(c, s) && (Stuck(c, s) <==> Final(s))
    ensures var s := run[|run| - 1];
            Final(s) ==>
              s.pc == c.work && ExactlyOnce(c.work, s.hist) && s.sem == 0 && s.wg == 0 && s.buffer == [] && s.held.None?
  {
    var s := run[|run| - 1];
    RunInv(c, run, |run| - 1);
    if !Final(s) {
      var step := SomeStepEnabled(c, s);
      assert Enabled(c, s, step);
    } else {
      AllDoneExactlyOnce(c, s);
      SumIsZero(Slots(s.phase));
      SumIsZero(InFlight(s.phase));
      WaitingJobs(s);
    }
  }

  /** With no slots at all a non-empty set of jobs never finishes: the one at the dispatcher's hand waits forever. */
  lemma NoSlotsNoProgress(c: Config, run: seq<State>)
    requires IsRun(c, run) && c.concurrency == 0 && c.work != []
    ensures forall i :: 0 <= i < |run| ==>
      !Final(run[i]) && run[i].main.Submitting? && run[i].pc == seq(|c.work|, _ => 0)
  {
    forall i | 0 <= i < |run| ensures !Final(run[i]) && run[i].main.Submitting? && run[i].pc == seq(|c.work|, _ => 0) {
      RunInv(c, run, i);
      assert BeforeRunning(run[i].phase[0]);
    }
  }

  /** Once Wait has returned, every job has executed in full and no step that is still possible runs any job code. */
  lemma NothingRunsAfterWait(c: Config, run: seq<State>, i: nat, step: Step)
    requires IsRun(c, run) && i < |run| && !run[i].main.Submitting?
    ensures Shaped(c, run[i]) && run[i].pc == c.work && ExactlyOnce(c.work, run[i].hist)
    ensures Enabled(c, run[i], step) ==> Next(c, run[i], step).hist == run[i].hist
  {
    RunInv(c, run, i);
    AllDoneExactlyOnce(c, run[i]);
  }

  /** At no moment do more jobs execute than there are slots, nor does the channel hold more than a thousand; the
      semaphore and the WaitGroup count exactly what they stand for. A job that is counted waits to be sent only while
      the channel is full, and one at the dispatcher's hand only while as many execute as there are slots. */
  lemma PoolIsBounded(c: Config, run: seq<State>, i: nat)
    requires IsRun(c, run) && i < |run|
    ensures |set j | 0 <= j < |run[i].phase| && run[i].phase[j].Running?| == run[i].sem <= c.concurrency
    ensures |set j | 0 <= j < |run[i].phase| && !run[i].phase[j].Pending? && !run[i].phase[j].Done?| == run[i].wg
    ensures |run[i].buffer| <= 1000
    ensures Shaped(c, run[i]) && forall j :: 0 <= j < |run[i].phase| && run[i].phase[j].Counted? ==>
      (Enabled(c, run[i], Send) <==> |run[i].buffer| < 1000)
    ensures run[i].held.Some? ==>
      (Enabled(c, run[i], Acquire) <==>
       |set j | 0 <= j < |run[i].phase| && run[i].phase[j].Running?| < c.concurrency)
  {
    RunInv(c, run, i);
    var phase := run[i].phase;
    OnesAreCounted(Slots(phase));
    OnesAreCounted(InFlight(phase));
    assert (set j | 0 <= j < |phase| && phase[j].Running?) == set j | 0 <= j < |phase| && Slots(phase)[j] == 1;
    assert (set j | 0 <= j < |phase| && !phase[j].Pending? && !phase[j].Done?)
        == set j | 0 <= j < |phase| && InFlight(phase)[j] == 1;
  }

  lemma {:induction false} OnesAreCounted(xs: seq<nat>)
    requires forall k :: 0 <= k < |xs| ==> xs[k] <= 1
    ensures |set k | 0 <= k < |xs| && xs[k] == 1| == Sum(xs)
  {
    if xs == [] {
    } else {
      var n := |xs| - 1;
      OnesAreCounted(xs[..n]);
      SumSplitLast(xs);
      var rest := set k | 0 <= k < n && xs[..n][k] == 1;
      var all := set k | 0 <= k < |xs| && xs[k] == 1;
      if xs[n] == 1 {
        assert all == rest + {n} && n !in rest;
      } else {
        assert all == rest;
      }
    }
  }

  lemma {:induction false} SumSplitLast(xs: seq<nat>)
    requires xs != []
    ensures Sum(xs) == Sum(xs[..|xs| - 1]) + xs[|xs| - 1]
  {
    if |xs| <= 1 {
    } else {
      SumSplitLast(xs[1..]);
      assert xs[1..][..|xs| - 2] == xs[..|xs| - 1][1..];
    }
  }
}
