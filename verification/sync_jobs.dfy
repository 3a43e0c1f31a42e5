/**
What the jobs of SyncDate do to the store, and what any interleaving of them leaves behind. A job's
Execute is the sequence of its atomic store writes; a history says which job made its next write when.
*/
module SyncJobs {
  import opened Filters
  import opened Wrappers
  import opened Store
  import opened Pool
  import opened Histories

  /** A row as the Insights API answers it. Its own account id is not used: rows are stored under the job's account. */
  datatype InsightRow = InsightRow(
    date: string, adsetId: string, campaignId: string, campaignName: string, adsetName: string,
    impressions: int, clicks: int, spend: real)

  datatype AdAccount = AdAccount(accountId: string, tokenId: string, currency: string, status: int)

  /** What one job meets: the fetch's answer, the error of saving the rows if that fails, and whether
      the three writes whose errors are dropped took effect. */
  datatype Answer = Answer(
    fetch: Result<seq<InsightRow>, string>, saveError: Option<string>,
    retryWritten: bool, stateWritten: bool, markWritten: bool)

  datatype Job = Job(account: AdAccount, date: string, answer: Answer)

  datatype SyncError = SyncError(account: string, message: string)

  /** One atomic action of a job. */
  datatype Op =
    | SetRetry(account: string)
    | AddError(account: string, message: string)
    | SaveRows(account: string, rows: seq<SpendRow>)
    | SetOk(account: string, date: string)
    | Mark(account: string)

  function ToSpendRow(account: AdAccount, r: InsightRow): SpendRow {
    SpendRow(Key(account.accountId, r.date, r.adsetId),
             Spend(r.campaignId, r.campaignName, r.adsetName, r.impressions, r.clicks, r.spend, account.currency))
  }

  function ToSpendRows(account: AdAccount, rows: seq<InsightRow>): (r: seq<SpendRow>)
    ensures |r| == |rows| && forall i :: 0 <= i < |r| ==> r[i] == ToSpendRow(account, rows[i])
  {
    seq(|rows|, i requires 0 <= i < |rows| => ToSpendRow(account, rows[i]))
  }

  /** Saving an empty batch never fails: UpsertSpendRows returns before it opens a transaction. */
  predicate SaveFails(j: Job) {
    j.answer.fetch.Ok? && j.answer.fetch.value != [] && j.answer.saveError.Some?
  }

  predicate Fails(j: Job) {
    j.answer.fetch.Err? || SaveFails(j)
  }

  function ErrorOf(j: Job): SyncError
    requires Fails(j)
  {
    SyncError(j.account.accountId, if j.answer.fetch.Err? then j.answer.fetch.error else j.answer.saveError.value)
  }

  /** The atomic actions of insightsJob.Execute, in order. A dropped write that had no effect is no action. */
  function Program(j: Job): seq<Op> {
    var a := j.account.accountId;
    if j.answer.fetch.Err? then
      (if j.answer.retryWritten then [SetRetry(a)] else []) + [AddError(a, j.answer.fetch.error)]
    else if SaveFails(j) then
      [AddError(a, j.answer.saveError.value)]
    else
      [SaveRows(a, ToSpendRows(j.account, j.answer.fetch.value))]
      + (if j.answer.stateWritten then [SetOk(a, j.date)] else [])
      + (if j.answer.markWritten then [Mark(a)] else [])
  }

  function LastOk(t: Tables, a: string): string {
    if a in t.state then t.state[a].lastOk else ""
  }

  function Apply(op: Op, t: Tables): Tables {
    match op
    case SetRetry(a) => t.(state := t.state[a := SyncState(LastOk(t, a), true)])
    case AddError(_, _) => t
    case SaveRows(_, rows) => t.(spend := PutAll(t.spend, rows))
    case SetOk(a, d) => t.(state := t.state[a := SyncState(d, false)])
    case Mark(a) => t.(synced := t.synced + {a})
  }

  function RunOps(ops: seq<Op>, t: Tables): Tables {
    if ops == [] then t else Apply(ops[|ops| - 1], RunOps(ops[..|ops| - 1], t))
  }

  /** The errors the collector holds after these actions. */
  function Errors(ops: seq<Op>): seq<SyncError> {
    Collect(ops, ErrorIn())
  }

  function ErrorIn(): Op -> Option<SyncError> {
    (op: Op) => if op.AddError? then Some(SyncError(op.account, op.message)) else None
  }

  function Programs(jobs: seq<Job>): (p: seq<seq<Op>>)
    ensures |p| == |jobs| && forall j :: 0 <= j < |jobs| ==> p[j] == Program(jobs[j])
  {
    seq(|jobs|, j requires 0 <= j < |jobs| => Program(jobs[j]))
  }

  lemma {:induction false} RunOpsSplit(x: seq<Op>, y: seq<Op>, t: Tables)
    ensures RunOps(x + y, t) == RunOps(y, RunOps(x, t))
  {
    if y == [] {
      assert x + y == x;
    } else {
      assert (x + y)[..|x + y| - 1] == x + y[..|y| - 1];
      RunOpsSplit(x, y[..|y| - 1], t);
    }
  }

  lemma RunOpsAppend(ops: seq<Op>, op: Op, t: Tables)
    ensures RunOps(ops + [op], t) == Apply(op, RunOps(ops, t))
  {
    assert (ops + [op])[..|ops|] == ops;
  }

  // ----- Schedule independence when no two jobs share an account -----

  /** The part of the tables that belongs to one account. */
  function Part(t: Tables, a: string): Tables {
    Tables(map k | k in t.spend && k.account == a :: t.spend[k],
           map x | x in t.state && x == a :: t.state[x],
           t.synced * {a})
  }

  function IsForAccount(a: string): Op -> bool {
    (op: Op) => op.account == a
  }

  function ForAccount(ops: seq<Op>, a: string): seq<Op> {
    Filter(ops, IsForAccount(a))
  }

  predicate OwnKeys(op: Op) {
    op.SaveRows? ==> forall i :: 0 <= i < |op.rows| ==> op.rows[i].key.account == op.account
  }

  lemma ProgramOwnsItsKeys(j: Job, i: nat)
    requires i < |Program(j)|
    ensures OwnKeys(Program(j)[i]) && Program(j)[i].account == j.account.accountId
  {
  }

  lemma {:induction false} PutAllPart(m: map<Key, Spend>, rows: seq<SpendRow>, b: string, a: string)
    requires forall i :: 0 <= i < |rows| ==> rows[i].key.account == b
    ensures (map k | k in PutAll(m, rows) && k.account == a :: PutAll(m, rows)[k])
         == var part := map k | k in m && k.account == a :: m[k]; if a == b then PutAll(part, rows) else part
    decreases rows
  {
    if rows == [] {
    } else {
      var m' := m[rows[0].key := rows[0].data];
      PutAllPart(m', rows[1..], b, a);
      var part := map k | k in m && k.account == a :: m[k];
      var part' := map k | k in m' && k.account == a :: m'[k];
      assert part' == if a == b then part[rows[0].key := rows[0].data] else part;
    }
  }

  /** An action changes its own account's part, by that part alone, and no other account's. */
  lemma ApplyIsLocal(op: Op, t: Tables, a: string)
    requires OwnKeys(op)
    ensures Part(Apply(op, t), a) == if op.account == a then Apply(op, Part(t, a)) else Part(t, a)
  {
    if op.SaveRows? {
      PutAllPart(t.spend, op.rows, op.account, a);
    }
  }

  lemma {:induction false} RunIsLocal(ops: seq<Op>, t: Tables, a: string)
    requires forall i :: 0 <= i < |ops| ==> OwnKeys(ops[i])
    ensures Part(RunOps(ops, t), a) == RunOps(ForAccount(ops, a), Part(t, a))
  {
    if ops == [] {
    } else {
      var last := |ops| - 1;
      RunIsLocal(ops[..last], t, a);
      ApplyIsLocal(ops[last], RunOps(ops[..last], t), a);
      if ops[last].account == a {
        RunOpsAppend(ForAccount(ops[..last], a), ops[last], Part(t, a));
      } else {
        assert ForAccount(ops, a) == ForAccount(ops[..last], a);
      }
    }
  }

  lemma TablesFromParts(t: Tables, u: Tables)
    requires forall a :: Part(t, a) == Part(u, a)
    ensures t == u
  {
    forall k | k in t.spend || k in u.spend ensures k in t.spend && k in u.spend && t.spend[k] == u.spend[k] {
      var pt, pu := Part(t, k.account).spend, Part(u, k.account).spend;
      assert k in pt <==> k in t.spend;
      assert k in pu <==> k in u.spend;
    }
    forall a | a in t.state || a in u.state ensures a in t.state && a in u.state && t.state[a] == u.state[a] {
      var pt, pu := Part(t, a).state, Part(u, a).state;
      assert a in pt <==> a in t.state;
      assert a in pu <==> a in u.state;
    }
    forall a ensures a in t.synced <==> a in u.synced {
      assert a in Part(t, a).synced <==> a in t.synced;
      assert a in Part(u, a).synced <==> a in u.synced;
    }
    assert t.spend == u.spend && t.state == u.state && t.synced == u.synced;
  }

  /** Each program acts on one account, `accounts[j]`, and writes only that account's spend rows. */
  ghost predicate Owned(programs: seq<seq<Op>>, accounts: seq<string>) {
    && |accounts| == |programs|
    && forall j, i :: 0 <= j < |programs| && 0 <= i < |programs[j]| ==>
        OwnKeys(programs[j][i]) && programs[j][i].account == accounts[j]
  }

  /** In a history, an account's actions are those of the one job that has it. */
  lemma {:induction false} AccountIsOneJob(programs: seq<seq<Op>>, accounts: seq<string>, h: seq<Event>, j: nat)
    requires InRange(programs, h) && Owned(programs, accounts) && NoRepeats(accounts) && j < |accounts|
    ensures InRange(programs, OfJob(h, j))
    ensures ForAccount(Ops(programs, h), accounts[j]) == Ops(programs, OfJob(h, j))
  {
    OfJobInRange(programs, h, j);
    if h == [] {
    } else {
      var last := |h| - 1;
      AccountIsOneJob(programs, accounts, h[..last], j);
      assert Ops(programs, h)[..last] == Ops(programs, h[..last]);
      assert accounts[h[last].job] == accounts[j] <==> h[last].job == j;
    }
  }

  lemma {:induction false} NoJobNoOps(programs: seq<seq<Op>>, accounts: seq<string>, h: seq<Event>, a: string)
    requires InRange(programs, h) && Owned(programs, accounts) && a !in accounts
    ensures ForAccount(Ops(programs, h), a) == []
  {
    if h == [] {
    } else {
      var last := |h| - 1;
      NoJobNoOps(programs, accounts, h[..last], a);
      assert Ops(programs, h)[..last] == Ops(programs, h[..last]);
      assert accounts[h[last].job] in accounts;
    }
  }

  /** What a complete history leaves of a job's account: the job's program run on the account's own part. */
  lemma PartOfJob(programs: seq<seq<Op>>, accounts: seq<string>, h: seq<Event>, t: Tables, j: nat)
    requires Owned(programs, accounts) && NoRepeats(accounts) && Complete(programs, h) && j < |accounts|
    ensures InRange(programs, h)
    ensures Part(RunOps(Ops(programs, h), t), accounts[j]) == RunOps(programs[j], Part(t, accounts[j]))
  {
    CompleteInOrder(programs, h);
    RunIsLocal(Ops(programs, h), t, accounts[j]);
    AccountIsOneJob(programs, accounts, h, j);
    WholeProgram(programs, h, j);
  }

  lemma PartOfNobody(programs: seq<seq<Op>>, accounts: seq<string>, h: seq<Event>, t: Tables, a: string)
    requires InRange(programs, h) && Owned(programs, accounts) && a !in accounts
    ensures Part(RunOps(Ops(programs, h), t), a) == Part(t, a)
  {
    RunIsLocal(Ops(programs, h), t, a);
    NoJobNoOps(programs, accounts, h, a);
  }

  /** Any two complete interleavings of programs on different accounts leave the same tables. */
  lemma SchedulesAgree(programs: seq<seq<Op>>, accounts: seq<string>, h: seq<Event>, g: seq<Event>, t: Tables)
    requires Owned(programs, accounts) && NoRepeats(accounts) && Complete(programs, h) && Complete(programs, g)
    ensures InRange(programs, h) && InRange(programs, g)
    ensures RunOps(Ops(programs, h), t) == RunOps(Ops(programs, g), t)
  {
    CompleteInOrder(programs, h);
    CompleteInOrder(programs, g);
    var x, y := RunOps(Ops(programs, h), t), RunOps(Ops(programs, g), t);
    forall a ensures Part(x, a) == Part(y, a) {
      if j :| 0 <= j < |accounts| && accounts[j] == a {
        PartOfJob(programs, accounts, h, t, j);
        PartOfJob(programs, accounts, g, t, j);
      } else {
        PartOfNobody(programs, accounts, h, t, a);
        PartOfNobody(programs, accounts, g, t, a);
      }
    }
    TablesFromParts(x, y);
  }

  function Accounts(jobs: seq<Job>): (accounts: seq<string>)
    ensures |accounts| == |jobs| && forall j :: 0 <= j < |jobs| ==> accounts[j] == jobs[j].account.accountId
  {
    seq(|jobs|, j requires 0 <= j < |jobs| => jobs[j].account.accountId)
  }

  lemma JobsOwnTheirKeys(jobs: seq<Job>)
    ensures Owned(Programs(jobs), Accounts(jobs))
  {
    forall j, i | 0 <= j < |jobs| && 0 <= i < |Programs(jobs)[j]|
      ensures OwnKeys(Programs(jobs)[j][i]) && Programs(jobs)[j][i].account == Accounts(jobs)[j]
    {
      ProgramOwnsItsKeys(jobs[j], i);
    }
  }

  /** Every interleaving of a sync's jobs leaves exactly what processing the accounts one by one leaves. */
  lemma ScheduleIndependence(jobs: seq<Job>, h: seq<Event>, t: Tables)
    requires NoRepeats(Accounts(jobs)) && Complete(Programs(jobs), h)
    ensures InRange(Programs(jobs), h)
    ensures RunOps(Ops(Programs(jobs), h), t) == RunOps(SequentialOps(Programs(jobs), Range(|jobs|)), t)
  {
    JobsOwnTheirKeys(jobs);
    SequentialIsComplete(Programs(jobs));
    SchedulesAgree(Programs(jobs), Accounts(jobs), h, SequentialHistory(Work(Programs(jobs))), t);
  }

  // ----- On the pool -----

  /** At every moment of every schedule of the pool, each job has run a first part of its program, in order. */
  lemma PoolKeepsOrder(jobs: seq<Job>, concurrency: nat, run: seq<State>, i: nat)
    requires IsRun(Config(concurrency, Work(Programs(jobs))), run) && i < |run|
    ensures InOrder(Programs(jobs), run[i].hist)
  {
    RunInv(Config(concurrency, Work(Programs(jobs))), run, i);
  }

  /** Every schedule of the pool that has gone as far as it can, with at least one slot, has done to the tables what a
      sequential run of the jobs does. */
  lemma PoolRefinesSequential(jobs: seq<Job>, concurrency: nat, run: seq<State>, t: Tables)
    requires var c := Config(concurrency, Work(Programs(jobs)));
      concurrency >= 1 && IsRun(c, run) && Shaped(c, run[|run| - 1]) && Stuck(c, run[|run| - 1])
    requires NoRepeats(Accounts(jobs))
    ensures var h := run[|run| - 1].hist;
      && Complete(Programs(jobs), h) && InRange(Programs(jobs), h)
      && RunOps(Ops(Programs(jobs), h), t) == RunOps(SequentialOps(Programs(jobs), Range(|jobs|)), t)
  {
    MaximalRunsFinish(Config(concurrency, Work(Programs(jobs))), run);
    ScheduleIndependence(jobs, run[|run| - 1].hist, t);
  }

  // ----- What one job leaves, and syncing again -----

  lemma RunShort(a: Op, b: Op, c: Op, t: Tables)
    ensures RunOps([a], t) == Apply(a, t)
    ensures RunOps([a, b], t) == Apply(b, Apply(a, t))
    ensures RunOps([a, b, c], t) == Apply(c, Apply(b, Apply(a, t)))
  {
    RunOpsAppend([], a, t);
    RunOpsAppend([a], b, t);
    RunOpsAppend([a, b], c, t);
    assert [] + [a] == [a] && [a] + [b] == [a, b] && [a, b] + [c] == [a, b, c];
  }

  /** What one whole job leaves of the tables. */
  function JobEffect(j: Job, t: Tables): Tables {
    var a := j.account.accountId;
    Tables(
      if Fails(j) then t.spend else PutAll(t.spend, ToSpendRows(j.account, j.answer.fetch.value)),
      if j.answer.fetch.Err? && j.answer.retryWritten then t.state[a := SyncState(LastOk(t, a), true)]
      else if !Fails(j) && j.answer.stateWritten then t.state[a := SyncState(j.date, false)]
      else t.state,
      if !Fails(j) && j.answer.markWritten then t.synced + {a} else t.synced)
  }

  /** A job's atomic actions, run with nothing in between, add up to its effect. */
  lemma ProgramEffect(j: Job, t: Tables)
    ensures RunOps(Program(j), t) == JobEffect(j, t)
  {
    var a, d := j.account.accountId, j.answer;
    if d.fetch.Err? {
      if d.retryWritten {
        RunShort(SetRetry(a), AddError(a, d.fetch.error), Mark(a), t);
      } else {
        RunShort(AddError(a, d.fetch.error), Mark(a), Mark(a), t);
      }
    } else if SaveFails(j) {
      RunShort(AddError(a, d.saveError.value), Mark(a), Mark(a), t);
    } else {
      var save := SaveRows(a, ToSpendRows(j.account, d.fetch.value));
      RunShort(save, if d.stateWritten then SetOk(a, j.date) else Mark(a), Mark(a), t);
    }
  }

  /** Different accounts are needed: a fetch that fails and one that succeeds for the same account leave a different
      record depending on which came last. */
  lemma SharedAccountMatters(x: Job, y: Job, t: Tables)
    requires x.account.accountId == y.account.accountId
    requires x.answer.fetch.Err? && x.answer.retryWritten && !Fails(y) && y.answer.stateWritten
    ensures RunOps(Program(x) + Program(y), t) != RunOps(Program(y) + Program(x), t)
  {
    var a := x.account.accountId;
    RunOpsSplit(Program(x), Program(y), t);
    RunOpsSplit(Program(y), Program(x), t);
    ProgramEffect(x, t);
    ProgramEffect(y, JobEffect(x, t));
    ProgramEffect(y, t);
    ProgramEffect(x, JobEffect(y, t));
    assert !RunOps(Program(x) + Program(y), t).state[a].retryPending;
    assert RunOps(Program(y) + Program(x), t).state[a].retryPending;
  }

  lemma RunTwice(j: Job, t: Tables)
    ensures RunOps(Program(j), RunOps(Program(j), t)) == RunOps(Program(j), t)
  {
    ProgramEffect(j, t);
    ProgramEffect(j, RunOps(Program(j), t));
    if !Fails(j) {
      BatchIdempotent(t.spend, ToSpendRows(j.account, j.answer.fetch.value));
    }
  }

  /** Running the same sync again, under any schedule, changes nothing. */
  lemma {:induction false} ResyncChangesNothing(jobs: seq<Job>, h: seq<Event>, g: seq<Event>, t: Tables)
    requires NoRepeats(Accounts(jobs)) && Complete(Programs(jobs), h) && Complete(Programs(jobs), g)
    ensures InRange(Programs(jobs), h) && InRange(Programs(jobs), g)
    ensures var once := RunOps(Ops(Programs(jobs), h), t); RunOps(Ops(Programs(jobs), g), once) == once
  {
    var programs, accounts := Programs(jobs), Accounts(jobs);
    JobsOwnTheirKeys(jobs);
    CompleteInOrder(programs, h);
    CompleteInOrder(programs, g);
    var once := RunOps(Ops(programs, h), t);
    var twice := RunOps(Ops(programs, g), once);
    forall a ensures Part(twice, a) == Part(once, a) {
      if j :| 0 <= j < |accounts| && accounts[j] == a {
        PartOfJob(programs, accounts, h, t, j);
        PartOfJob(programs, accounts, g, once, j);
        RunTwice(jobs[j], Part(t, a));
      } else {
        PartOfNobody(programs, accounts, g, once, a);
      }
    }
    TablesFromParts(twice, once);
  }
}
