/**
What a history of jobs means for the run's accounting and for the sync_state record: each failing job
adds exactly one error, and the progress record never claims more than was saved.
*/
module SyncRecord {
  import opened Filters
  import opened Wrappers
  import opened Store
  import opened Pool
  import opened Histories
  import opened SyncJobs

  // ----- Accounting -----

  lemma ErrorsCounted(ops: seq<Op>, e: SyncError)
    ensures multiset(Errors(ops))[e] == multiset(ops)[AddError(e.account, e.message)]
  {
    CollectCounted(ops, ErrorIn(), AddError(e.account, e.message), e);
  }

  function FailureOf(): Job -> Option<SyncError> {
    (j: Job) => if Fails(j) then Some(ErrorOf(j)) else None
  }

  /** One error for each failing job, in job order. */
  function FailureErrors(jobs: seq<Job>): seq<SyncError> {
    Collect(jobs, FailureOf())
  }

  /** A job's error, if it has one, is its last action. */
  lemma ErrorComesLast(j: Job)
    ensures var p := Program(j);
      && p != [] && (forall i :: 0 <= i < |p| - 1 ==> !p[i].AddError?)
      && (p[|p| - 1].AddError? <==> Fails(j))
      && (Fails(j) ==> p[|p| - 1] == AddError(ErrorOf(j).account, ErrorOf(j).message))
  {
  }

  lemma ProgramErrors(j: Job)
    ensures Errors(Program(j)) == if Fails(j) then [ErrorOf(j)] else []
  {
    ErrorComesLast(j);
    CollectLast(Program(j), ErrorIn());
  }

  lemma FailureErrorsStep(jobs: seq<Job>, n: nat)
    requires 0 < n <= |jobs|
    ensures FailureErrors(jobs[..n])
         == FailureErrors(jobs[..n - 1]) + (if Fails(jobs[n - 1]) then [ErrorOf(jobs[n - 1])] else [])
  {
    assert jobs[..n][..n - 1] == jobs[..n - 1];
  }

  lemma {:induction false} SequentialErrors(jobs: seq<Job>, n: nat)
    requires n <= |jobs|
    ensures Errors(SequentialOps(Programs(jobs), Range(n))) == FailureErrors(jobs[..n])
  {
    if n == 0 {
    } else {
      SequentialErrors(jobs, n - 1);
      SequentialStep(Programs(jobs), n);
      CollectSplit(SequentialOps(Programs(jobs), Range(n - 1)), Program(jobs[n - 1]), ErrorIn());
      ProgramErrors(jobs[n - 1]);
      FailureErrorsStep(jobs, n);
    }
  }

  lemma {:induction false} FailuresCounted(jobs: seq<Job>)
    ensures |FailureErrors(jobs)| == |set j | 0 <= j < |jobs| && Fails(jobs[j])|
  {
    if jobs == [] {
    } else {
      var n := |jobs| - 1;
      FailuresCounted(jobs[..n]);
      var before := set j | 0 <= j < n && Fails(jobs[..n][j]);
      var all := set j | 0 <= j < |jobs| && Fails(jobs[j]);
      if Fails(jobs[n]) {
        assert all == before + {n} && n !in before;
      } else {
        assert all == before;
      }
    }
  }

  lemma {:induction false} SuccessesCounted(jobs: seq<Job>)
    ensures |jobs| - |FailureErrors(jobs)| == |set j | 0 <= j < |jobs| && !Fails(jobs[j])|
  {
    if jobs == [] {
    } else {
      var n := |jobs| - 1;
      SuccessesCounted(jobs[..n]);
      var before := set j | 0 <= j < n && !Fails(jobs[..n][j]);
      var all := set j | 0 <= j < |jobs| && !Fails(jobs[j]);
      if Fails(jobs[n]) {
        assert all == before;
      } else {
        assert all == before + {n} && n !in before;
      }
    }
  }

  /** When all jobs are done, in whatever interleaving, the collector holds exactly one error for each failing job. */
  lemma {:induction false} OneErrorPerFailure(jobs: seq<Job>, h: seq<Event>)
    requires Complete(Programs(jobs), h) && InRange(Programs(jobs), h)
    ensures multiset(Errors(Ops(Programs(jobs), h))) == multiset(FailureErrors(jobs))
  {
    SameActions(Programs(jobs), h);
    var ops, sequential := Ops(Programs(jobs), h), SequentialOps(Programs(jobs), Range(|jobs|));
    forall e ensures multiset(Errors(ops))[e] == multiset(Errors(sequential))[e] {
      ErrorsCounted(ops, e);
      ErrorsCounted(sequential, e);
    }
    assert multiset(Errors(ops)) == multiset(Errors(sequential));
    SequentialErrors(jobs, |jobs|);
    assert jobs[..|jobs|] == jobs;
  }

  /** So the count of jobs less the count of errors is the count of jobs that succeeded. */
  lemma {:induction false} ErrorsAreExact(jobs: seq<Job>, h: seq<Event>)
    requires Complete(Programs(jobs), h) && InRange(Programs(jobs), h)
    ensures |Errors(Ops(Programs(jobs), h))| == |set j | 0 <= j < |jobs| && Fails(jobs[j])|
    ensures |jobs| - |Errors(Ops(Programs(jobs), h))| == |set j | 0 <= j < |jobs| && !Fails(jobs[j])|
  {
    OneErrorPerFailure(jobs, h);
    assert |multiset(Errors(Ops(Programs(jobs), h)))| == |multiset(FailureErrors(jobs))|;
    FailuresCounted(jobs);
    SuccessesCounted(jobs);
  }

  // ----- The progress record -----

  predicate IsStateWrite(op: Op, a: string) {
    (op.SetRetry? || op.SetOk?) && op.account == a
  }

  /** Where the latest write to account a's sync_state row stands. */
  function LastWriteAt(ops: seq<Op>, a: string): (at: Option<nat>)
    ensures at.Some? ==> at.value < |ops| && IsStateWrite(ops[at.value], a)
    ensures forall i :: (if at.Some? then at.value < i < |ops| else 0 <= i < |ops|) ==> !IsStateWrite(ops[i], a)
  {
    if ops == [] then None
    else if IsStateWrite(ops[|ops| - 1], a) then Some(|ops| - 1)
    else LastWriteAt(ops[..|ops| - 1], a)
  }

  /** Where the latest successful update of account a's sync_state row stands. */
  function LastOkAt(ops: seq<Op>, a: string): (at: Option<nat>)
    ensures at.Some? ==> at.value < |ops| && ops[at.value].SetOk? && ops[at.value].account == a
    ensures at.None? ==> forall i :: 0 <= i < |ops| ==> !(ops[i].SetOk? && ops[i].account == a)
  {
    if ops == [] then None
    else if ops[|ops| - 1].SetOk? && ops[|ops| - 1].account == a then Some(|ops| - 1)
    else LastOkAt(ops[..|ops| - 1], a)
  }

  predicate RetryPending(t: Tables, a: string) {
    a in t.state && t.state[a].retryPending
  }

  lemma {:induction false} RecordAfter(ops: seq<Op>, t: Tables, a: string)
    ensures LastOk(RunOps(ops, t), a) == if LastOkAt(ops, a).Some? then ops[LastOkAt(ops, a).value].date
      else LastOk(t, a)
    ensures RetryPending(RunOps(ops, t), a) ==
            if LastWriteAt(ops, a).Some? then ops[LastWriteAt(ops, a).value].SetRetry? else RetryPending(t, a)
  {
    if ops == [] {
    } else {
      RecordAfter(ops[..|ops| - 1], t, a);
    }
  }

  lemma {:induction false} SavedKeysStay(ops: seq<Op>, t: Tables, i: nat)
    requires i < |ops| && ops[i].SaveRows?
    ensures forall r :: r in ops[i].rows ==> r.key in RunOps(ops, t).spend
  {
    var last := |ops| - 1;
    forall r | r in ops[i].rows ensures r.key in RunOps(ops, t).spend {
      if i < last {
        SavedKeysStay(ops[..last], t, i);
      }
      if ops[last].SaveRows? {
        LastRowWins(RunOps(ops[..last], t).spend, ops[last].rows, r.key);
      }
    }
  }

  /** Only a job that does not fail writes a last good date, its own, and not before it saved its rows. */
  lemma SetOkComesFrom(j: Job, i: nat)
    requires i < |Program(j)| && Program(j)[i].SetOk?
    ensures 0 < i && !Fails(j) && Program(j)[i] == SetOk(j.account.accountId, j.date)
    ensures Program(j)[0] == SaveRows(j.account.accountId, ToSpendRows(j.account, j.answer.fetch.value))
  {
  }

  lemma SetRetryComesFrom(j: Job, i: nat)
    requires i < |Program(j)| && (Program(j)[i].SetRetry? || Program(j)[i].SetOk?)
    ensures Program(j)[i].account == j.account.accountId
    ensures Program(j)[i].SetRetry? <==> j.answer.fetch.Err?
  {
  }

  /** Over all runs, of any dates and however interleaved or cut short: when account a's record says d was
      synced, some job for a and d has already committed its rows, and those keys are still in the table. */
  lemma {:induction false} ProgressIsTruthful(jobs: seq<Job>, h: seq<Event>, t: Tables, a: string) returns (i: nat)
    requires InOrder(Programs(jobs), h) && InRange(Programs(jobs), h) && t.state == map[]
    ensures var now := RunOps(Ops(Programs(jobs), h), t);
      LastOk(now, a) != "" ==>
        && i < |h| && h[i].job < |jobs| && h[i].action == 0
        && var job := jobs[h[i].job];
          && !Fails(job) && job.account.accountId == a && job.date == LastOk(now, a)
          && Program(job)[0] == SaveRows(a, ToSpendRows(job.account, job.answer.fetch.value))
          && forall r :: r in ToSpendRows(job.account, job.answer.fetch.value) ==> r.key in now.spend
  {
    var ops := Ops(Programs(jobs), h);
    RecordAfter(ops, t, a);
    i := 0;
    if LastOkAt(ops, a).Some? {
      var k := LastOkAt(ops, a).value;
      SetOkComesFrom(jobs[h[k].job], h[k].action);
      i := FirstComesFirst(Programs(jobs), h, k);
      SavedKeysStay(ops, t, i);
    }
  }

  /** So at every moment of every schedule of the pool, finished or not, the record is truthful. */
  lemma PoolIsTruthful(jobs: seq<Job>, concurrency: nat, run: seq<State>, i: nat, t: Tables, a: string) returns (k: nat)
    requires IsRun(Config(concurrency, Work(Programs(jobs))), run) && i < |run| && t.state == map[]
    ensures InRange(Programs(jobs), run[i].hist)
    ensures var h := run[i].hist; var now := RunOps(Ops(Programs(jobs), h), t);
      LastOk(now, a) != "" ==>
        && k < |h| && h[k].job < |jobs| && h[k].action == 0
        && var job := jobs[h[k].job];
          && !Fails(job) && job.account.accountId == a && job.date == LastOk(now, a)
          && forall r :: r in ToSpendRows(job.account, job.answer.fetch.value) ==> r.key in now.spend
  {
    PoolKeepsOrder(jobs, concurrency, run, i);
    InOrderInRange(Programs(jobs), run[i].hist);
    k := ProgressIsTruthful(jobs, run[i].hist, t, a);
  }

  /** A retry is pending exactly when the latest write to the record came from a job whose fetch failed. */
  lemma RetryMeansFetchFailed(jobs: seq<Job>, h: seq<Event>, t: Tables, a: string)
    requires InRange(Programs(jobs), h) && t.state == map[]
    ensures var at := LastWriteAt(Ops(Programs(jobs), h), a);
      RetryPending(RunOps(Ops(Programs(jobs), h), t), a)
      <==> at.Some? && jobs[h[at.value].job].answer.fetch.Err? && jobs[h[at.value].job].account.accountId == a
  {
    var ops := Ops(Programs(jobs), h);
    RecordAfter(ops, t, a);
    var at := LastWriteAt(ops, a);
    if at.Some? {
      SetRetryComesFrom(jobs[h[at.value].job], h[at.value].action);
    }
  }

  /** No action of a failing job changes a spend row or any account's last good date. */
  lemma FailingJobIsHarmless(j: Job, i: nat, t: Tables, a: string)
    requires Fails(j) && i < |Program(j)|
    ensures Apply(Program(j)[i], t).spend == t.spend && LastOk(Apply(Program(j)[i], t), a) == LastOk(t, a)
  {
  }
}
