/** The pool's shared state as an object: each method is one atomic action of one of its goroutines. */
module WorkerPools {
  import opened Wrappers
  import opened Pool

  class WorkerPool {
    const config: Config
    var phase: seq<Phase>
    var pc: seq<nat>
    var next: nat
    var jobs: seq<nat>
    var held: Option<nat>
    var sem: nat
    var wg: nat
    var main: Main
    var dispatcherExited: bool
    var hist: seq<Event>  // what the jobs have done so far, for the record only

    function View(): State
      reads this
    {
      State(phase, pc, next, jobs, held, sem, wg, main, dispatcherExited, hist)
    }

    predicate Can(step: Step)
      reads this
    {
      Shaped(config, View()) && Enabled(config, View(), step)
    }

    /** New and Start: nothing is submitted, the dispatcher waits on an empty channel. */
    constructor (concurrency: nat, work: seq<nat>)
      ensures config == Config(concurrency, work) && View() == Init(config)
    {
      config := Config(concurrency, work);
      phase, pc := seq(|work|, _ => Pending), seq(|work|, _ => 0);
      next, jobs, held, sem, wg := 0, [], None, 0, 0;
      main, dispatcherExited, hist := Submitting, false, [];
    }

    /** The first half of Submit. */
    method AddToCount()
      requires Can(AddCount)
      modifies this
      ensures old(Can(AddCount)) && View() == Next(config, old(View()), AddCount)
    {
      wg := wg + 1;
      phase := phase[next := Counted];
    }

    /** The second half of Submit: the send, which blocks while the channel is full. */
    method SendJob()
      requires Can(Send)
      modifies this
      ensures old(Can(Send)) && View() == Next(config, old(View()), Send)
    {
      jobs := jobs + [next];
      phase := phase[next := Queued];
      next := next + 1;
    }

    method Wait()
      requires Can(WaitReturn)
      modifies this
      ensures old(Can(WaitReturn)) && View() == Next(config, old(View()), WaitReturn)
    {
      main := Waited;
    }

    method CloseJobs()
      requires Can(Close)
      modifies this
      ensures old(Can(Close)) && View() == Next(config, old(View()), Close)
    {
      main := Closed;
    }

    method ReceiveJob()
      requires Can(Receive)
      modifies this
      ensures old(Can(Receive)) && View() == Next(config, old(View()), Receive)
    {
      held := Some(jobs[0]);
      phase := phase[jobs[0] := Held];
      jobs := jobs[1..];
    }

    method AcquireSlot()
      requires Can(Acquire)
      modifies this
      ensures old(Can(Acquire)) && View() == Next(config, old(View()), Acquire)
    {
      sem := sem + 1;
      phase := phase[held.value := Running];
      held := None;
    }

    method ExitDispatcher()
      requires Can(DispatcherExit)
      modifies this
      ensures old(Can(DispatcherExit)) && View() == Next(config, old(View()), DispatcherExit)
    {
      dispatcherExited := true;
    }

    /** Job j's next atomic action, whose effect is the job's own. */
    method ActOnce(j: nat) returns (action: nat)
      requires Can(Act(j))
      modifies this
      ensures old(Can(Act(j))) && View() == Next(config, old(View()), Act(j)) && action == old(pc)[j]
    {
      action := pc[j];
      hist := hist + [Event(j, action)];
      pc := pc[j := action + 1];
    }

    method ReleaseSlot(j: nat)
      requires Can(Release(j))
      modifies this
      ensures old(Can(Release(j))) && View() == Next(config, old(View()), Release(j))
    {
      sem := sem - 1;
      phase := phase[j := Released];
    }

    method MarkJobDone(j: nat)
      requires Can(MarkDone(j))
      modifies this
      ensures old(Can(MarkDone(j))) && View() == Next(config, old(View()), MarkDone(j))
    {
      wg := wg - 1;
      phase := phase[j := Done];
    }
  }
}
