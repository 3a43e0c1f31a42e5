/**
SyncDate end to end: choose the accounts, run one job for each on the worker pool under an arbitrary
schedule, collect the errors; and the scheduler's run record around it.
*/
module SyncPipeline {
  import opened Filters
  import opened Wrappers
  import opened Store
  import opened Pool
  import opened WorkerPools
  import opened Histories
  import opened SyncJobs
  import opened SyncRecord
  import opened SyncSerial
  import opened SyncOutcome

  const WORKER_CONCURRENCY: nat := 4

  datatype ActiveToken = ActiveToken(id: string, accessToken: string)

  datatype SyncResult = SyncResult(success: int, errors: seq<SyncError>)

  class SyncErrorCollector {
    var errors: seq<SyncError>

    constructor ()
      ensures errors == []
    {
      errors := [];
    }

    method Add(account: string, message: string)
      modifies this
      ensures errors == old(errors) + [SyncError(account, message)]
    {
      errors := errors + [SyncError(account, message)];
    }
  }

  // ----- One job -----

  method ToDbRows(account: AdAccount, rows: seq<InsightRow>) returns (dbRows: seq<SpendRow>)
    ensures dbRows == ToSpendRows(account, rows)
  {
    dbRows := [];
    for i := 0 to |rows|
      invariant dbRows == ToSpendRows(account, rows[..i])
    {
      dbRows := dbRows + [ToSpendRow(account, rows[i])];
    }
    assert rows[..|rows|] == rows;
  }

  /** insightsJob.Execute run to its end with nothing in between; `saveFault` is what strikes the save. */
  method Execute(j: Job, saveFault: Fault, store: SqlStore, collector: SyncErrorCollector)
    requires store.Valid()
    requires j.answer.fetch.Ok? ==> (Strikes(saveFault, |j.answer.fetch.value|) <==> j.answer.saveError.Some?)
    modifies store, collector
    ensures store.Valid() && store.View() == JobEffect(j, old(store.View()))
    ensures AllShow([j], old(store.View()), store.View())
    ensures collector.errors == old(collector.errors) + Reported(j)
  {
    JobAlone(j, store.View());
    var a := j.account.accountId;
    if j.answer.fetch.Err? {
      store.SetNextRetry(a, j.answer.retryWritten);
      collector.Add(a, j.answer.fetch.error);
      return;
    }
    var dbRows := ToDbRows(j.account, j.answer.fetch.value);
    var ok := store.UpsertSpendRows(dbRows, saveFault);
    if !ok {
      collector.Add(a, j.answer.saveError.value);
      return;
    }
    store.UpdateSyncState(a, j.date, j.answer.stateWritten);
    store.MarkAccountSynced(a, j.answer.markWritten);
  }

  /** One atomic action of a job. */
  method Perform(op: Op, store: SqlStore, collector: SyncErrorCollector)
    requires store.Valid()
    modifies store, collector
    ensures store.Valid() && store.View() == Apply(op, old(store.View()))
    ensures collector.errors == old(collector.errors)
      + (if op.AddError? then [SyncError(op.account, op.message)] else [])
  {
    match op
    case SetRetry(a) => store.SetNextRetry(a, true);
    case AddError(a, message) => collector.Add(a, message);
    case SaveRows(_, rows) => var _ := store.UpsertSpendRows(rows, NoFault);
    case SetOk(a, d) => store.UpdateSyncState(a, d, true);
    case Mark(a) => store.MarkAccountSynced(a, true);
  }

  // ----- All jobs, on the pool -----

  method PoolStep(pool: WorkerPool, step: Step)
    requires pool.Can(step) && !step.Act?
    modifies pool
    ensures old(pool.Can(step)) && pool.View() == Next(pool.config, old(pool.View()), step)
  {
    match step
    case AddCount => pool.AddToCount();
    case Send => pool.SendJob();
    case WaitReturn => pool.Wait();
    case Close => pool.CloseJobs();
    case Receive => pool.ReceiveJob();
    case Acquire => pool.AcquireSlot();
    case DispatcherExit => pool.ExitDispatcher();
    case Release(j) => pool.ReleaseSlot(j);
    case MarkDone(j) => pool.MarkJobDone(j);
  }

  lemma OneMoreOp(programs: seq<seq<Op>>, h: seq<Event>, e: Event, t: Tables)
    requires InRange(programs, h) && e.job < |programs| && e.action < |programs[e.job]|
    ensures InRange(programs, h + [e])
    ensures RunOps(Ops(programs, h + [e]), t) == Apply(programs[e.job][e.action], RunOps(Ops(programs, h), t))
    ensures var op := programs[e.job][e.action];
      Errors(Ops(programs, h + [e]))
        == Errors(Ops(programs, h)) + (if op.AddError? then [SyncError(op.account, op.message)] else [])
  {
    assert Ops(programs, h + [e]) == Ops(programs, h) + [programs[e.job][e.action]];
    assert (Ops(programs, h) + [programs[e.job][e.action]])[..|h|] == Ops(programs, h);
  }

  /** One turn: the pool takes the step, and if the step is a job's, the job acts on the store. */
  method Turn(
      programs: seq<seq<Op>>, pool: WorkerPool, step: Step, store: SqlStore, collector: SyncErrorCollector,
      ghost start: Tables)
    requires pool.Can(step) && pool.config.work == Work(programs) && InRange(programs, pool.hist)
    requires store.Valid() && store.View() == RunOps(Ops(programs, pool.hist), start)
    requires collector.errors == Errors(Ops(programs, pool.hist))
    modifies pool, store, collector
    ensures old(pool.Can(step)) && pool.View() == Next(pool.config, old(pool.View()), step)
      && InRange(programs, pool.hist)
    ensures store.Valid() && store.View() == RunOps(Ops(programs, pool.hist), start)
    ensures collector.errors == Errors(Ops(programs, pool.hist))
  {
    if step.Act? {
      OneMoreOp(programs, pool.hist, Event(step.j, pool.pc[step.j]), start);
      var action := pool.ActOnce(step.j);
      Perform(programs[step.j][action], store, collector);
    } else {
      PoolStep(pool, step);
      assert pool.hist == old(pool.hist);
    }
  }

  /** The pool runs the jobs under whatever schedule: at each turn any goroutine that can move may. It always
      ends, with every job's program performed exactly once; `run` is the schedule it took, of a pool of four slots. */
  method RunJobs(programs: seq<seq<Op>>, store: SqlStore, collector: SyncErrorCollector)
    returns (ghost h: seq<Event>, ghost run: seq<State>)
    requires store.Valid() && collector.errors == []
    modifies store, collector
    ensures Complete(programs, h) && InRange(programs, h)
    ensures IsRun(Config(4, Work(programs)), run) && run[|run| - 1].hist == h && Final(run[|run| - 1])
    ensures store.Valid() && store.View() == RunOps(Ops(programs, h), old(store.View()))
    ensures collector.errors == Errors(Ops(programs, h))
  {
    var pool := new WorkerPool(WORKER_CONCURRENCY, Work(programs));
    InitInv(pool.config);
    run := [pool.View()];
    while !pool.main.Closed? || !pool.dispatcherExited
      invariant pool.config == Config(WORKER_CONCURRENCY, Work(programs)) && Inv(pool.config, pool.View())
      invariant Reaches(pool.config, run, pool.View())
      invariant InRange(programs, pool.hist)
      invariant store.Valid() && store.View() == RunOps(Ops(programs, pool.hist), old(store.View()))
      invariant collector.errors == Errors(Ops(programs, pool.hist))
      decreases Measure(pool.config, pool.View())
    {
      ghost var _ := SomeStepEnabled(pool.config, pool.View());
      var step :| Enabled(pool.config, pool.View(), step);
      RunGoesOn(pool.config, run, pool.View(), step);
      run := run + [Next(pool.config, pool.View(), step)];
      Turn(programs, pool, step, store, collector, old(store.View()));
    }
    h := pool.hist;
    AllDoneExactlyOnce(pool.config, pool.View());
  }

  // ----- Choosing the accounts -----

  /** 101 is closed, 102 any_closed; every other status still has spend data. */
  predicate IsClosed(status: int) {
    status == 101 || status == 102
  }

  function IsActive(tokens: set<string>): AdAccount -> bool {
    (a: AdAccount) => !IsClosed(a.status) && a.tokenId in tokens
  }

  function Active(accounts: seq<AdAccount>, tokens: set<string>): seq<AdAccount> {
    Filter(accounts, IsActive(tokens))
  }

  /** The chosen accounts are exactly those neither closed nor without an active token, each as often as listed. */
  lemma ActiveIsExact(accounts: seq<AdAccount>, tokens: set<string>, a: AdAccount)
    ensures multiset(Active(accounts, tokens))[a]
         == if a.status !in {101, 102} && a.tokenId in tokens then multiset(accounts)[a] else 0
  {
    FilterCounted(accounts, IsActive(tokens), a);
  }

  method TokenMap(tokens: seq<ActiveToken>) returns (m: map<string, string>)
    ensures m.Keys == set i | 0 <= i < |tokens| :: tokens[i].id
    ensures forall i :: 0 <= i < |tokens| && (forall k :: i < k < |tokens| ==> tokens[k].id != tokens[i].id)
              ==> m[tokens[i].id] == tokens[i].accessToken
  {
    m := map[];
    for n := 0 to |tokens|
      invariant m.Keys == set i | 0 <= i < n :: tokens[i].id
      invariant forall i :: 0 <= i < n && (forall k :: i < k < n ==> tokens[k].id != tokens[i].id)
                  ==> m[tokens[i].id] == tokens[i].accessToken
    {
      m := m[tokens[n].id := tokens[n].accessToken];
    }
  }

  method ActiveAccounts(accounts: seq<AdAccount>, tokens: map<string, string>) returns (active: seq<AdAccount>)
    ensures active == Active(accounts, tokens.Keys)
  {
    active := [];
    for i := 0 to |accounts|
      invariant active == Active(accounts[..i], tokens.Keys)
    {
      assert accounts[..i + 1][..i] == accounts[..i];
      if !IsClosed(accounts[i].status) && accounts[i].tokenId in tokens {
        active := active + [accounts[i]];
      }
    }
    assert accounts[..|accounts|] == accounts;
  }

  function JobsFor(active: seq<AdAccount>, date: string, answers: AdAccount -> Answer): (jobs: seq<Job>)
    ensures |jobs| == |active|
    ensures forall i :: 0 <= i < |jobs| ==> jobs[i] == Job(active[i], date, answers(active[i]))
  {
    seq(|active|, i requires 0 <= i < |active| => Job(active[i], date, answers(active[i])))
  }

  // ----- SyncDate -----

  /** What a complete history of one date's jobs leaves of the errors and of the tables. */
  lemma Accounted(jobs: seq<Job>, date: string, h: seq<Event>, t: Tables) returns (order: seq<nat>)
    requires Complete(Programs(jobs), h) && InRange(Programs(jobs), h)
    requires forall j :: 0 <= j < |jobs| ==> jobs[j].date == date
    ensures var errors := Errors(Ops(Programs(jobs), h));
      && multiset(errors) == multiset(AllReported(jobs))
      && |jobs| - |errors| == |set j | 0 <= j < |jobs| && Reported(jobs[j]) == []|
    ensures multiset(order) == multiset(Range(|jobs|)) && Indexes(order, |jobs|)
    ensures RunOps(Ops(Programs(jobs), h), t) == RunOps(SequentialOps(Programs(jobs), order), t)
    ensures NoRepeats(Accounts(jobs)) ==>
      && RunOps(Ops(Programs(jobs), h), t) == RunOps(SequentialOps(Programs(jobs), Range(|jobs|)), t)
      && AllShow(jobs, t, RunOps(Ops(Programs(jobs), h), t))
  {
    FailuresAreReported(jobs);
    OneErrorPerFailure(jobs, h);
    ErrorsAreExact(jobs, h);
    OneDateIsApart(jobs, date);
    order := Serializable(jobs, h, t);
    if NoRepeats(Accounts(jobs)) {
      ScheduleIndependence(jobs, h, t);
      EveryOutcome(jobs, h, t);
    }
  }

  /** One job of the date for each listed row that is neither closed nor without an active token, with what that row's
      job will meet. */
  ghost predicate OneJobEach(
      jobs: seq<Job>, tokens: seq<ActiveToken>, accounts: seq<AdAccount>, date: string, answers: AdAccount -> Answer)
  {
    && (forall i :: 0 <= i < |jobs| ==> jobs[i].date == date && jobs[i].answer == answers(jobs[i].account))
    && forall a :: multiset(Map((j: Job) => j.account, jobs))[a]
        == if a.status !in {101, 102} && (exists t <- tokens :: t.id == a.tokenId) then multiset(accounts)[a] else 0
  }

  lemma JobsAreOneEach(
      tokens: seq<ActiveToken>, accounts: seq<AdAccount>, date: string, answers: AdAccount -> Answer)
    ensures var ids := set i | 0 <= i < |tokens| :: tokens[i].id;
      OneJobEach(JobsFor(Active(accounts, ids), date, answers), tokens, accounts, date, answers)
  {
    var ids := set i | 0 <= i < |tokens| :: tokens[i].id;
    var jobs := JobsFor(Active(accounts, ids), date, answers);
    assert Map((j: Job) => j.account, jobs) == Active(accounts, ids);
    forall a ensures multiset(Active(accounts, ids))[a]
      == if a.status !in {101, 102} && (exists t <- tokens :: t.id == a.tokenId) then multiset(accounts)[a] else 0
    {
      ActiveIsExact(accounts, ids, a);
      assert a.tokenId in ids <==> exists t <- tokens :: t.id == a.tokenId;
    }
  }

  /** The accounts to sync, none when the tokens or the accounts cannot be read. */
  method ChooseAccounts(
      tokens: Result<seq<ActiveToken>, string>, accounts: Result<seq<AdAccount>, string>,
      date: string, answers: AdAccount -> Answer)
    returns (active: seq<AdAccount>, ghost jobs: seq<Job>)
    ensures jobs == JobsFor(active, date, answers)
    ensures tokens.Err? || accounts.Err? ==> active == []
    ensures tokens.Ok? && accounts.Ok? ==>
      && active == Active(accounts.value, set i | 0 <= i < |tokens.value| :: tokens.value[i].id)
      && OneJobEach(jobs, tokens.value, accounts.value, date, answers)
  {
    active := [];
    if tokens.Ok? && accounts.Ok? {
      var tokenMap := TokenMap(tokens.value);
      active := ActiveAccounts(accounts.value, tokenMap);
      JobsAreOneEach(tokens.value, accounts.value, date, answers);
    }
    jobs := JobsFor(active, date, answers);
  }

  /** `answers` says, for each account row, what its job will meet. */
  method SyncDate(
      tokens: Result<seq<ActiveToken>, string>, accounts: Result<seq<AdAccount>, string>,
      date: string, answers: AdAccount -> Answer, store: SqlStore)
    returns (res: SyncResult, ghost jobs: seq<Job>, ghost h: seq<Event>, ghost order: seq<nat>)
    requires store.Valid()
    modifies store
    ensures store.Valid()
    ensures tokens.Err? || accounts.Err? ==> jobs == []
    ensures tokens.Ok? && accounts.Ok? ==>
      && jobs == JobsFor(Active(accounts.value, set i | 0 <= i < |tokens.value| :: tokens.value[i].id), date, answers)
      && OneJobEach(jobs, tokens.value, accounts.value, date, answers)
    ensures Complete(Programs(jobs), h) && InRange(Programs(jobs), h)
    ensures store.View() == RunOps(Ops(Programs(jobs), h), old(store.View()))
    ensures multiset(order) == multiset(Range(|jobs|)) && Indexes(order, |jobs|)
    ensures store.View() == RunOps(SequentialOps(Programs(jobs), order), old(store.View()))
    ensures NoRepeats(Accounts(jobs)) ==>
      && store.View() == RunOps(SequentialOps(Programs(jobs), Range(|jobs|)), old(store.View()))
      && AllShow(jobs, old(store.View()), store.View())
    ensures multiset(res.errors) == multiset(AllReported(jobs))
    ensures res.success == |set j | 0 <= j < |jobs| && Reported(jobs[j]) == []|
    ensures res.success + |res.errors| == |jobs|
  {
    var active;
    active, jobs := ChooseAccounts(tokens, accounts, date, answers);
    h := [];
    var errors: seq<SyncError> := [];
    if |active| > 0 {
      var collector := new SyncErrorCollector();
      ghost var run;
      h, run := RunJobs(Programs(JobsFor(active, date, answers)), store, collector);
      errors := collector.errors;
    } else {
      NothingToRun(jobs, store.View());
    }
    order := Accounted(jobs, date, h, old(store.View()));
    res := SyncResult(|active| - |errors|, errors);
  }

  lemma NothingToRun(jobs: seq<Job>, t: Tables)
    requires jobs == []
    ensures Complete(Programs(jobs), []) && InRange(Programs(jobs), [])
    ensures RunOps(Ops(Programs(jobs), []), t) == t && Errors(Ops(Programs(jobs), [])) == []
  {
  }

  // ----- The run record -----

  datatype RunRecord = RunRecord(date: string, finished: bool, successCount: int, errorCount: int)

  datatype ErrorRow = ErrorRow(runId: nat, error: SyncError)

  function ErrorOfRun(runId: nat): ErrorRow -> Option<SyncError> {
    (row: ErrorRow) => if row.runId == runId then Some(row.error) else None
  }

  function RowsOf(rows: seq<ErrorRow>, runId: nat): seq<SyncError> {
    Collect(rows, ErrorOfRun(runId))
  }

  function ErrorRows(runId: nat, errs: seq<SyncError>): (rows: seq<ErrorRow>)
    ensures |rows| == |errs| && forall i :: 0 <= i < |rows| ==> rows[i] == ErrorRow(runId, errs[i])
  {
    seq(|errs|, i requires 0 <= i < |errs| => ErrorRow(runId, errs[i]))
  }

  lemma {:induction false} AddedRows(errs: seq<SyncError>, runId: nat, id: nat)
    ensures RowsOf(ErrorRows(runId, errs), id) == if id == runId then errs else []
  {
    if errs == [] {
    } else {
      var n := |errs| - 1;
      AddedRows(errs[..n], runId, id);
      assert ErrorRows(runId, errs)[..n] == ErrorRows(runId, errs[..n]);
      assert errs == errs[..n] + [errs[n]];
    }
  }

  lemma RowsAfterAdding(rows: seq<ErrorRow>, errs: seq<SyncError>, runId: nat)
    ensures forall id ::
      RowsOf(rows + ErrorRows(runId, errs), id) == RowsOf(rows, id) + (if id == runId then errs else [])
  {
    forall id
      ensures RowsOf(rows + ErrorRows(runId, errs), id) == RowsOf(rows, id) + (if id == runId then errs else [])
    {
      CollectSplit(rows, ErrorRows(runId, errs), ErrorOfRun(id));
      AddedRows(errs, runId, id);
    }
  }

  function Added(added: bool, errs: seq<SyncError>): seq<SyncError> {
    if added then errs else []
  }

  class RunLog {
    var runs: map<nat, RunRecord>
    var errorRows: seq<ErrorRow>
    var nextRunId: nat  // the uuid generator: every run id drawn is new

    ghost predicate Valid()
      reads this
    {
      && (forall id :: id in runs ==> id < nextRunId)
      && forall i :: 0 <= i < |errorRows| ==> errorRows[i].runId < nextRunId
    }

    constructor ()
      ensures Valid() && runs == map[] && errorRows == []
    {
      runs, errorRows, nextRunId := map[], [], 0;
    }

    method CreateSyncRun(date: string, dbOk: bool) returns (id: Option<nat>)
      requires Valid()
      modifies this
      ensures Valid() && errorRows == old(errorRows)
      ensures id == if dbOk then Some(old(nextRunId)) else None
      ensures runs == if dbOk then old(runs)[old(nextRunId) := RunRecord(date, false, 0, 0)] else old(runs)
    {
      nextRunId := nextRunId + 1;
      if !dbOk {
        return None;
      }
      runs := runs[nextRunId - 1 := RunRecord(date, false, 0, 0)];
      return Some(nextRunId - 1);
    }

    method FinishSyncRun(id: nat, success: int, errCount: int, dbOk: bool)
      modifies this`runs
      ensures runs == if dbOk && id in old(runs)
        then old(runs)[id := RunRecord(old(runs)[id].date, true, success, errCount)] else old(runs)
    {
      if dbOk && id in runs {
        runs := runs[id := RunRecord(runs[id].date, true, success, errCount)];
      }
    }

    /** All the rows or none. */
    method AddSyncErrors(runId: nat, errs: seq<SyncError>, fault: Fault)
      requires Valid() && runId < nextRunId
      modifies this`errorRows
      ensures Valid()
      ensures forall id ::
        RowsOf(errorRows, id) == RowsOf(old(errorRows), id) + Added(id == runId && !Strikes(fault, |errs|), errs)
      ensures fault.NoFault? || (fault.ExecFails? && fault.at >= |errs|) || errorRows == old(errorRows)
    {
      if |errs| == 0 {
        return;
      }
      if fault.BeginFails? || fault.PrepareFails? {
        return;
      }
      var tx := errorRows;
      for i := 0 to |errs|
        invariant errorRows == old(errorRows)
        invariant tx == errorRows + ErrorRows(runId, errs[..i])
        invariant fault.ExecFails? ==> i <= fault.at
      {
        if fault == ExecFails(i) {
          return;
        }
        tx := tx + [ErrorRow(runId, errs[i])];
      }
      if fault.CommitFails? {
        return;
      }
      assert errs[..|errs|] == errs;
      RowsAfterAdding(errorRows, errs, runId);
      errorRows := tx;
    }
  }

  /** A run just created has no error rows. */
  lemma NoRowsYet(rows: seq<ErrorRow>, id: nat)
    requires forall i :: 0 <= i < |rows| ==> rows[i].runId < id
    ensures RowsOf(rows, id) == []
  {
    CollectNone(rows, ErrorOfRun(id));
  }

  /** The two log writes after a sync. The stored error count equals the number of error rows exactly when there
      were no errors or the two writes fared alike; other runs' records and rows are left alone. */
  method RecordOutcome(log: RunLog, id: nat, res: SyncResult, finishOk: bool, addFault: Fault)
    requires log.Valid() && id in log.runs && log.runs[id].errorCount == 0 && RowsOf(log.errorRows, id) == []
    modifies log
    ensures log.Valid() && log.nextRunId == old(log.nextRunId)
    ensures log.runs == if finishOk
      then old(log.runs)[id := RunRecord(old(log.runs)[id].date, true, res.success, |res.errors|)] else old(log.runs)
    ensures RowsOf(log.errorRows, id) == if Strikes(addFault, |res.errors|) then [] else res.errors
    ensures log.runs[id].errorCount == |RowsOf(log.errorRows, id)|
       <==> res.errors == [] || (finishOk <==> !Strikes(addFault, |res.errors|))
    ensures forall other :: other != id ==> RowsOf(log.errorRows, other) == RowsOf(old(log.errorRows), other)
  {
    log.FinishSyncRun(id, res.success, |res.errors|, finishOk);
    if |res.errors| > 0 {
      log.AddSyncErrors(id, res.errors, addFault);
    }
  }

  /** The scheduler's closure: create the run, sync, and record the outcome. */
  method LoggedSync(
      log: RunLog, createOk: bool, finishOk: bool, addFault: Fault,
      tokens: Result<seq<ActiveToken>, string>, accounts: Result<seq<AdAccount>, string>,
      date: string, answers: AdAccount -> Answer, store: SqlStore)
    returns (res: SyncResult, id: Option<nat>, ghost jobs: seq<Job>)
    requires log.Valid() && store.Valid()
    modifies log, store
    ensures log.Valid() && store.Valid()
    ensures tokens.Ok? && accounts.Ok? ==>
      && jobs == JobsFor(Active(accounts.value, set i | 0 <= i < |tokens.value| :: tokens.value[i].id), date, answers)
      && OneJobEach(jobs, tokens.value, accounts.value, date, answers)
    ensures id.Some? <==> createOk
    ensures id.None? ==> log.runs == old(log.runs) && log.errorRows == old(log.errorRows)
    ensures createOk && finishOk && !Strikes(addFault, |res.errors|) ==>
      && id.value in log.runs
      && log.runs[id.value] ==
          RunRecord(date, true, |set j | 0 <= j < |jobs| && Reported(jobs[j]) == []|, |RowsOf(log.errorRows, id.value)|)
      && multiset(RowsOf(log.errorRows, id.value)) == multiset(AllReported(jobs))
  {
    ghost var h;
    NoRowsYet(log.errorRows, log.nextRunId);
    id := log.CreateSyncRun(date, createOk);
    ghost var order;
    res, jobs, h, order := SyncDate(tokens, accounts, date, answers, store);
    if id.Some? {
      RecordOutcome(log, id.value, res, finishOk, addFault);
    }
  }
}
