/**
What a job leaves behind, said field by field of what was fetched and of the account's row, for one job on its own and
for every job of a sync.
*/
module SyncOutcome {
  import opened Wrappers
  import opened Store
  import opened Pool
  import opened Histories
  import opened SyncJobs
  import opened SyncRecord

  /** The stored figures are the fetched row's, in the account's currency. */
  predicate Shows(d: Spend, r: InsightRow, account: AdAccount) {
    && d.campaignId == r.campaignId && d.campaignName == r.campaignName && d.adsetName == r.adsetName
    && d.impressions == r.impressions && d.clicks == r.clicks && d.spend == r.spend
    && d.currency == account.currency
  }

  predicate IsAt(k: Key, account: AdAccount, r: InsightRow) {
    k.account == account.accountId && k.date == r.date && k.adset == r.adsetId
  }

  /** No later row is of the same date and adset. */
  predicate LastOfItsKind(rows: seq<InsightRow>, i: nat)
    requires i < |rows|
  {
    forall n :: i < n < |rows| ==> rows[n].date != rows[i].date || rows[n].adsetId != rows[i].adsetId
  }

  predicate IsForNone(k: Key, account: AdAccount, rows: seq<InsightRow>) {
    forall i :: 0 <= i < |rows| ==> !IsAt(k, account, rows[i])
  }

  predicate SameEntry(p: map<Key, Spend>, q: map<Key, Spend>, k: Key) {
    (k in p <==> k in q) && (k in p ==> p[k] == q[k])
  }

  /** Of the account's entries, each that a fetched row is for shows the last such row, and the others are as before. */
  ghost predicate RowsStored(account: AdAccount, rows: seq<InsightRow>, p: map<Key, Spend>, q: map<Key, Spend>) {
    && (forall i: int, k: Key :: 0 <= i < |rows| && LastOfItsKind(rows, i) && IsAt(k, account, rows[i]) ==>
          k in q && Shows(q[k], rows[i], account))
    && (forall k: Key :: k.account == account.accountId && IsForNone(k, account, rows) ==> SameEntry(p, q, k))
  }

  ghost predicate EntriesKept(a: string, p: map<Key, Spend>, q: map<Key, Spend>) {
    forall k: Key :: k.account == a ==> SameEntry(p, q, k)
  }

  predicate RecordKept(a: string, t: Tables, u: Tables) {
    (a in t.state <==> a in u.state) && (a in t.state ==> u.state[a] == t.state[a])
  }

  ghost predicate AccountKept(a: string, t: Tables, u: Tables) {
    EntriesKept(a, t.spend, u.spend) && RecordKept(a, t, u) && (a in t.synced <==> a in u.synced)
  }

  /** What job j made of its account's part of the tables. */
  ghost predicate Outcome(j: Job, t: Tables, u: Tables) {
    var a, answer := j.account.accountId, j.answer;
    if answer.fetch.Err? then
      && EntriesKept(a, t.spend, u.spend) && (a in t.synced <==> a in u.synced)
      && (if answer.retryWritten
          then a in u.state && u.state[a] == SyncState(if a in t.state then t.state[a].lastOk else "", true)
          else RecordKept(a, t, u))
    else if answer.fetch.value != [] && answer.saveError.Some? then AccountKept(a, t, u)
    else
      && RowsStored(j.account, answer.fetch.value, t.spend, u.spend)
      && (if answer.stateWritten
          then a in u.state && u.state[a] == SyncState(j.date, false)
          else RecordKept(a, t, u))
      && (a in u.synced <==> answer.markWritten || a in t.synced)
  }

  /** The error a job reports, if it does. */
  function Reported(j: Job): seq<SyncError> {
    if j.answer.fetch.Err? then [SyncError(j.account.accountId, j.answer.fetch.error)]
    else if j.answer.fetch.value != [] && j.answer.saveError.Some? then
      [SyncError(j.account.accountId, j.answer.saveError.value)]
    else []
  }

  /** The errors of all jobs, in job order. */
  function AllReported(jobs: seq<Job>): seq<SyncError> {
    if jobs == [] then [] else AllReported(jobs[..|jobs| - 1]) + Reported(jobs[|jobs| - 1])
  }

  lemma {:induction false} FailuresAreReported(jobs: seq<Job>)
    ensures FailureErrors(jobs) == AllReported(jobs)
    ensures (set j | 0 <= j < |jobs| && !Fails(jobs[j])) == set j | 0 <= j < |jobs| && Reported(jobs[j]) == []
  {
    if jobs == [] {
    } else {
      FailuresAreReported(jobs[..|jobs| - 1]);
    }
  }

  // ----- One job -----

  lemma RowIsStored(account: AdAccount, rows: seq<InsightRow>, p: map<Key, Spend>, i: nat, k: Key)
    requires i < |rows| && LastOfItsKind(rows, i) && IsAt(k, account, rows[i])
    ensures var q := PutAll(p, ToSpendRows(account, rows)); k in q && Shows(q[k], rows[i], account)
  {
    var dbRows := ToSpendRows(account, rows);
    LastRowWins(p, dbRows, k);
    assert dbRows[i].key == k && forall n :: i < n < |dbRows| ==> dbRows[n].key != k;
  }

  lemma OtherEntryStays(account: AdAccount, rows: seq<InsightRow>, p: map<Key, Spend>, k: Key)
    requires IsForNone(k, account, rows)
    ensures SameEntry(p, PutAll(p, ToSpendRows(account, rows)), k)
  {
    var dbRows := ToSpendRows(account, rows);
    LastRowWins(p, dbRows, k);
    assert forall i :: 0 <= i < |dbRows| ==> dbRows[i].key != k;
  }

  lemma RowsAreStored(account: AdAccount, rows: seq<InsightRow>, p: map<Key, Spend>)
    ensures RowsStored(account, rows, p, PutAll(p, ToSpendRows(account, rows)))
  {
    var q := PutAll(p, ToSpendRows(account, rows));
    forall i: int, k: Key | 0 <= i < |rows| && LastOfItsKind(rows, i) && IsAt(k, account, rows[i])
      ensures k in q && Shows(q[k], rows[i], account)
    {
      RowIsStored(account, rows, p, i, k);
    }
    forall k: Key | k.account == account.accountId && IsForNone(k, account, rows)
      ensures SameEntry(p, q, k)
    {
      OtherEntryStays(account, rows, p, k);
    }
  }

  lemma EffectOutcome(j: Job, t: Tables)
    ensures Outcome(j, t, JobEffect(j, t))
  {
    if j.answer.fetch.Ok? {
      RowsAreStored(j.account, j.answer.fetch.value, t.spend);
    }
  }

  lemma EffectKeepsOthers(j: Job, t: Tables, b: string)
    requires b != j.account.accountId
    ensures AccountKept(b, t, JobEffect(j, t))
  {
    if j.answer.fetch.Ok? {
      var dbRows := ToSpendRows(j.account, j.answer.fetch.value);
      forall k: Key | k.account == b ensures SameEntry(t.spend, PutAll(t.spend, dbRows), k) {
        LastRowWins(t.spend, dbRows, k);
      }
    }
  }

  // ----- All jobs -----

  lemma StoredInPart(
      account: AdAccount, rows: seq<InsightRow>, p: map<Key, Spend>, q: map<Key, Spend>, p': map<Key, Spend>,
      q': map<Key, Spend>)
    requires EntriesKept(account.accountId, p, p') && EntriesKept(account.accountId, q, q')
    ensures RowsStored(account, rows, p', q') ==> RowsStored(account, rows, p, q)
    ensures EntriesKept(account.accountId, p', q') ==> EntriesKept(account.accountId, p, q)
  {
    if RowsStored(account, rows, p', q') {
      forall i: int, k: Key | 0 <= i < |rows| && LastOfItsKind(rows, i) && IsAt(k, account, rows[i])
        ensures k in q && Shows(q[k], rows[i], account)
      {
        assert SameEntry(q, q', k);
      }
      forall k: Key | k.account == account.accountId && IsForNone(k, account, rows)
        ensures SameEntry(p, q, k)
      {
        assert SameEntry(p, p', k) && SameEntry(q, q', k) && SameEntry(p', q', k);
      }
    }
    if EntriesKept(account.accountId, p', q') {
      forall k: Key | k.account == account.accountId ensures SameEntry(p, q, k) {
        assert SameEntry(p, p', k) && SameEntry(q, q', k) && SameEntry(p', q', k);
      }
    }
  }

  /** A change to an account's own part is that change to the whole. */
  lemma OutcomeOfPart(j: Job, t: Tables, u: Tables)
    requires Part(u, j.account.accountId) == JobEffect(j, Part(t, j.account.accountId))
    ensures Outcome(j, t, u)
  {
    var a := j.account.accountId;
    var t', u' := Part(t, a), Part(u, a);
    EffectOutcome(j, t');
    PartIsSame(t, a);
    PartIsSame(u, a);
    OutcomeInPart(j, t, u, t', u');
  }

  lemma OutcomeInPart(j: Job, t: Tables, u: Tables, t': Tables, u': Tables)
    requires Outcome(j, t', u') && AccountKept(j.account.accountId, t, t') && AccountKept(j.account.accountId, u, u')
    ensures Outcome(j, t, u)
  {
    var rows := if j.answer.fetch.Ok? then j.answer.fetch.value else [];
    StoredInPart(j.account, rows, t.spend, u.spend, t'.spend, u'.spend);
  }

  lemma PartIsSame(t: Tables, a: string)
    ensures AccountKept(a, t, Part(t, a))
  {
  }

  lemma KeptOfPart(t: Tables, u: Tables, a: string)
    requires Part(u, a) == Part(t, a)
    ensures AccountKept(a, t, u)
  {
    PartIsSame(t, a);
    PartIsSame(u, a);
    forall k: Key | k.account == a ensures SameEntry(t.spend, u.spend, k) {
      assert SameEntry(t.spend, Part(t, a).spend, k) && SameEntry(u.spend, Part(u, a).spend, k);
    }
  }

  /** Each job's account shows that job's outcome, and every other account is as before. */
  ghost predicate AllShow(jobs: seq<Job>, t: Tables, u: Tables) {
    && (forall i :: 0 <= i < |jobs| ==> Outcome(jobs[i], t, u))
    && (forall a :: (forall i :: 0 <= i < |jobs| ==> jobs[i].account.accountId != a) ==> AccountKept(a, t, u))
  }

  lemma JobAlone(j: Job, t: Tables)
    ensures AllShow([j], t, JobEffect(j, t))
  {
    EffectOutcome(j, t);
    forall b | [j][0].account.accountId != b ensures AccountKept(b, t, JobEffect(j, t)) {
      EffectKeepsOthers(j, t, b);
    }
  }

  /** A job's atomic actions, run with nothing in between, leave its outcome and touch no other account. */
  lemma ProgramOutcome(j: Job, t: Tables)
    ensures AllShow([j], t, RunOps(Program(j), t))
  {
    ProgramEffect(j, t);
    JobAlone(j, t);
  }

  /** After any complete interleaving of jobs of different accounts, each account shows its job's outcome. */
  lemma EveryOutcome(jobs: seq<Job>, h: seq<Event>, t: Tables)
    requires NoRepeats(Accounts(jobs)) && Complete(Programs(jobs), h)
    ensures InRange(Programs(jobs), h) && AllShow(jobs, t, RunOps(Ops(Programs(jobs), h), t))
  {
    JobsOwnTheirKeys(jobs);
    CompleteInOrder(Programs(jobs), h);
    var u := RunOps(Ops(Programs(jobs), h), t);
    forall i | 0 <= i < |jobs| ensures Outcome(jobs[i], t, u) {
      var a := jobs[i].account.accountId;
      PartOfJob(Programs(jobs), Accounts(jobs), h, t, i);
      ProgramEffect(jobs[i], Part(t, a));
      OutcomeOfPart(jobs[i], t, u);
    }
    forall a | forall i :: 0 <= i < |jobs| ==> jobs[i].account.accountId != a ensures AccountKept(a, t, u) {
      PartOfNobody(Programs(jobs), Accounts(jobs), h, t, a);
      KeptOfPart(t, u, a);
    }
  }
}
