/**
From what was fetched to what the report shows: after a sync, the total of an account and a date is the spend of the
rows last fetched for it, and of the records stored before that no fetched row replaced.
*/
module Figures {
  import opened Filters
  import opened Wrappers
  import opened Store
  import opened Aggregate
  import opened Pool
  import opened Histories
  import opened SyncJobs
  import opened SyncOutcome
  import opened Reports

  /** The spend of a date among the fetched rows, of rows of one adset only the last. */
  function FetchedOn(rows: seq<InsightRow>, date: string): real {
    if rows == [] then 0.0
    else (if rows[0].date == date && LastOfItsKind(rows, 0) then rows[0].spend else 0.0) + FetchedOn(rows[1..], date)
  }

  /** Some fetched row is for this entry. */
  predicate Refetched(rows: seq<InsightRow>, k: Key) {
    exists r <- rows :: r.date == k.date && r.adsetId == k.adset
  }

  /** The spend stored for an account and date in records that no fetched row is for. */
  function NotRefetchedOn(table: seq<SpendRecord>, rows: seq<InsightRow>, account: string, date: string): real {
    if table == [] then 0.0
    else
      var r := table[0];
      (if r.key.account == account && r.key.date == date && !Refetched(rows, r.key) then r.data.spend else 0.0)
      + NotRefetchedOn(table[1..], rows, account, date)
  }

  // ----- The rows upserted one after the other -----

  function Upserted(table: seq<SpendRecord>, account: AdAccount, rows: seq<InsightRow>): seq<SpendRecord>
    decreases rows
  {
    if rows == [] then table else Upserted(UpsertOne(table, ToSpendRow(account, rows[0]), 0), account, rows[1..])
  }

  lemma UpsertStaysUnique(table: seq<SpendRecord>, row: SpendRow)
    requires UniqueKeys(table)
    ensures UniqueKeys(UpsertOne(table, row, 0))
  {
    UpsertOneRows(table, row, 0);
  }

  lemma {:induction false} UpsertedIs(table: seq<SpendRecord>, account: AdAccount, rows: seq<InsightRow>)
    requires UniqueKeys(table)
    ensures UniqueKeys(Upserted(table, account, rows))
    ensures Contents(Upserted(table, account, rows)) == PutAll(Contents(table), ToSpendRows(account, rows))
    decreases rows
  {
    if rows == [] {
    } else {
      var row := ToSpendRow(account, rows[0]);
      UpsertStaysUnique(table, row);
      UpsertOneContents(table, row, 0);
      UpsertedIs(UpsertOne(table, row, 0), account, rows[1..]);
      assert ToSpendRows(account, rows)[1..] == ToSpendRows(account, rows[1..]);
    }
  }

  lemma {:induction false} NothingFetched(table: seq<SpendRecord>, account: string, date: string)
    ensures NotRefetchedOn(table, [], account, date) == StoredOn(table, account, date)
  {
    if table == [] {
    } else {
      NothingFetched(table[1..], account, date);
    }
  }

  lemma RefetchedStep(rows: seq<InsightRow>, k: Key)
    requires rows != []
    ensures Refetched(rows, k) <==> (rows[0].date == k.date && rows[0].adsetId == k.adset) || Refetched(rows[1..], k)
  {
    assert rows == [rows[0]] + rows[1..];
  }

  /** A fetched row without a record of its own replaces nothing. */
  lemma {:induction false} ReplacesNothing(
      table: seq<SpendRecord>, rows: seq<InsightRow>, account: AdAccount, date: string)
    requires rows != [] && forall r <- table :: r.key != ToSpendRow(account, rows[0]).key
    ensures NotRefetchedOn(table, rows, account.accountId, date)
         == NotRefetchedOn(table, rows[1..], account.accountId, date)
  {
    if table == [] {
    } else {
      RefetchedStep(rows, table[0].key);
      assert table[0] in table && forall r <- table[1..] :: r in table;
      ReplacesNothing(table[1..], rows, account, date);
    }
  }

  lemma LastOrRefetched(account: AdAccount, rows: seq<InsightRow>)
    requires rows != []
    ensures LastOfItsKind(rows, 0) <==> !Refetched(rows[1..], ToSpendRow(account, rows[0]).key)
  {
    assert forall n :: 0 < n < |rows| ==> rows[n] == rows[1..][n - 1];
    if !LastOfItsKind(rows, 0) {
      var n :| 0 < n < |rows| && rows[n].date == rows[0].date && rows[n].adsetId == rows[0].adsetId;
      assert rows[1..][n - 1] in rows[1..];
    }
  }

  /** One upsert moves the row's record from those not refetched to the fetched figure, unless a later row replaces
      it. */
  lemma {:induction false} OneUpsert(table: seq<SpendRecord>, account: AdAccount, rows: seq<InsightRow>, date: string)
    requires UniqueKeys(table) && rows != []
    ensures NotRefetchedOn(UpsertOne(table, ToSpendRow(account, rows[0]), 0), rows[1..], account.accountId, date)
      == NotRefetchedOn(table, rows, account.accountId, date)
       + if rows[0].date == date && LastOfItsKind(rows, 0) then rows[0].spend else 0.0
  {
    var row := ToSpendRow(account, rows[0]);
    LastOrRefetched(account, rows);
    if table == [] {
    } else {
      RefetchedStep(rows, table[0].key);
      if table[0].key == row.key {
        forall r <- table[1..] ensures r.key != row.key {
          var i :| 0 <= i < |table[1..]| && table[1..][i] == r;
          assert table[i + 1] == r;
        }
        ReplacesNothing(table[1..], rows, account, date);
        assert UpsertOne(table, row, 0)[1..] == table[1..];
      } else {
        assert UpsertOne(table, row, 0)[1..] == UpsertOne(table[1..], row, 0);
        OneUpsert(table[1..], account, rows, date);
      }
    }
  }

  lemma {:induction false} UpsertedTotal(
      table: seq<SpendRecord>, account: AdAccount, rows: seq<InsightRow>, date: string)
    requires UniqueKeys(table)
    ensures StoredOn(Upserted(table, account, rows), account.accountId, date)
      == FetchedOn(rows, date) + NotRefetchedOn(table, rows, account.accountId, date)
    decreases rows
  {
    if rows == [] {
      NothingFetched(table, account.accountId, date);
    } else {
      var row := ToSpendRow(account, rows[0]);
      UpsertStaysUnique(table, row);
      UpsertedTotal(UpsertOne(table, row, 0), account, rows[1..], date);
      OneUpsert(table, account, rows, date);
    }
  }

  // ----- Any table with that outcome -----

  lemma StoredIsGroup(table: seq<SpendRecord>, account: string, date: string)
    ensures SpendSum(OfGroup(TableRows(table), (account, date))) == StoredOn(table, account, date)
  {
    StoredIsSummed(table, account, date);
    SumOfGroup(TableRows(table), account, date);
  }

  lemma TableRowsOnce(table: seq<SpendRecord>, r: SpendRow)
    requires UniqueKeys(table)
    ensures multiset(TableRows(table))[r]
         == if r.key in Contents(table) && Contents(table)[r.key] == r.data then 1 else 0
  {
    var rows := TableRows(table);
    ContentsAre(table);
    OnceEach(rows, r);
    if r in rows {
      var i :| 0 <= i < |rows| && rows[i] == r;
      assert table[i].key in Contents(table);
    }
    if r.key in Contents(table) && Contents(table)[r.key] == r.data {
      assert HasKey(table, r.key);
      var i :| 0 <= i < |table| && table[i].key == r.key;
      assert rows[i] == r;
    }
  }

  lemma SameEntriesSameTotal(x: seq<SpendRecord>, y: seq<SpendRecord>, account: string, date: string)
    requires UniqueKeys(x) && UniqueKeys(y) && EntriesKept(account, Contents(x), Contents(y))
    ensures StoredOn(x, account, date) == StoredOn(y, account, date)
  {
    var k := (account, date);
    var p, q := OfGroup(TableRows(x), k), OfGroup(TableRows(y), k);
    forall r ensures multiset(p)[r] == multiset(q)[r] {
      FilterCounted(TableRows(x), RowIn(k), r);
      FilterCounted(TableRows(y), RowIn(k), r);
      TableRowsOnce(x, r);
      TableRowsOnce(y, r);
      assert r.key.account == account ==> SameEntry(Contents(x), Contents(y), r.key);
    }
    assert multiset(p) == multiset(q);
    SumIgnoresOrder(p, q);
    StoredIsGroup(x, account, date);
    StoredIsGroup(y, account, date);
  }

  lemma {:induction false} LastOfKind(rows: seq<InsightRow>, account: AdAccount, k: Key, i: nat) returns (l: nat)
    requires i < |rows| && IsAt(k, account, rows[i])
    ensures l < |rows| && IsAt(k, account, rows[l]) && LastOfItsKind(rows, l)
    decreases |rows| - i
  {
    l := i;
    if n :| i < n < |rows| && rows[n].date == rows[i].date && rows[n].adsetId == rows[i].adsetId {
      l := LastOfKind(rows, account, k, n);
    }
  }

  /** What was there and what was fetched settle the account's entries. */
  lemma StoredIsSettled(
      account: AdAccount, rows: seq<InsightRow>, p: map<Key, Spend>, q: map<Key, Spend>, q': map<Key, Spend>)
    requires RowsStored(account, rows, p, q) && RowsStored(account, rows, p, q')
    ensures EntriesKept(account.accountId, q, q')
  {
    forall k: Key | k.account == account.accountId ensures SameEntry(q, q', k) {
      EntryIsSettled(account, rows, p, q, q', k);
    }
  }

  lemma EntryIsSettled(
      account: AdAccount, rows: seq<InsightRow>, p: map<Key, Spend>, q: map<Key, Spend>, q': map<Key, Spend>, k: Key)
    requires RowsStored(account, rows, p, q) && RowsStored(account, rows, p, q') && k.account == account.accountId
    ensures SameEntry(q, q', k)
  {
    if i :| 0 <= i < |rows| && IsAt(k, account, rows[i]) {
      var l := LastOfKind(rows, account, k, i);
      ShowsLast(account, rows, p, q, k, l);
      ShowsLast(account, rows, p, q', k, l);
      SameFigures(q[k], q'[k], rows[l], account);
    } else {
      assert SameEntry(p, q, k) && SameEntry(p, q', k);
    }
  }

  lemma ShowsLast(
      account: AdAccount, rows: seq<InsightRow>, p: map<Key, Spend>, q: map<Key, Spend>, k: Key, l: nat)
    requires RowsStored(account, rows, p, q) && l < |rows| && LastOfItsKind(rows, l) && IsAt(k, account, rows[l])
    ensures k in q && Shows(q[k], rows[l], account)
  {
  }

  lemma SameFigures(d: Spend, d': Spend, r: InsightRow, account: AdAccount)
    requires Shows(d, r, account) && Shows(d', r, account)
    ensures d == d'
  {
  }

  lemma RefetchedTotal(
      account: AdAccount, rows: seq<InsightRow>, x: seq<SpendRecord>, y: seq<SpendRecord>, date: string)
    requires UniqueKeys(x) && UniqueKeys(y) && RowsStored(account, rows, Contents(x), Contents(y))
    ensures StoredOn(y, account.accountId, date)
      == FetchedOn(rows, date) + NotRefetchedOn(x, rows, account.accountId, date)
  {
    var z := Upserted(x, account, rows);
    UpsertedIs(x, account, rows);
    RowsAreStored(account, rows, Contents(x));
    StoredIsSettled(account, rows, Contents(x), Contents(y), Contents(z));
    SameEntriesSameTotal(y, z, account.accountId, date);
    UpsertedTotal(x, account, rows, date);
  }

  // ----- The report after a sync -----

  /** What the table x, after this job, should hold for the job's account and a date. */
  function TotalAfter(j: Job, x: seq<SpendRecord>, date: string): real {
    var a := j.account.accountId;
    if Reported(j) != [] then StoredOn(x, a, date)
    else FetchedOn(j.answer.fetch.value, date) + NotRefetchedOn(x, j.answer.fetch.value, a, date)
  }

  lemma JobTotal(j: Job, t: Tables, u: Tables, x: seq<SpendRecord>, y: seq<SpendRecord>, date: string)
    requires TableOf(x, t) && TableOf(y, u) && Outcome(j, t, u)
    ensures StoredOn(y, j.account.accountId, date) == TotalAfter(j, x, date)
  {
    if Reported(j) != [] {
      SameEntriesSameTotal(x, y, j.account.accountId, date);
    } else {
      RefetchedTotal(j.account, j.answer.fetch.value, x, y, date);
    }
  }

  /** x is the table before a sync of different accounts and y the one after it, under any schedule. For an account
      synced without error y holds what was last fetched and what was not fetched again; for one that failed and for one
      not synced, what x held. */
  lemma TotalsAfterSync(jobs: seq<Job>, h: seq<Event>, t: Tables, x: seq<SpendRecord>, y: seq<SpendRecord>)
    requires NoRepeats(Accounts(jobs)) && Complete(Programs(jobs), h) && InRange(Programs(jobs), h)
    requires TableOf(x, t) && TableOf(y, RunOps(Ops(Programs(jobs), h), t))
    ensures forall i, date {:trigger TotalAfter(jobs[i], x, date)} :: 0 <= i < |jobs| ==>
      StoredOn(y, jobs[i].account.accountId, date) == TotalAfter(jobs[i], x, date)
    ensures forall a, date :: a !in Accounts(jobs) ==> StoredOn(y, a, date) == StoredOn(x, a, date)
  {
    var u := RunOps(Ops(Programs(jobs), h), t);
    EveryOutcome(jobs, h, t);
    forall i, date | 0 <= i < |jobs|
      ensures StoredOn(y, jobs[i].account.accountId, date) == TotalAfter(jobs[i], x, date)
    {
      JobTotal(jobs[i], t, u, x, y, date);
    }
    forall a, date | a !in Accounts(jobs) ensures StoredOn(y, a, date) == StoredOn(x, a, date) {
      assert forall i :: 0 <= i < |jobs| ==> Accounts(jobs)[i] == jobs[i].account.accountId;
      assert AccountKept(a, t, u);
      SameEntriesSameTotal(x, y, a, date);
    }
  }
  /** And that is what any report over y shows for the account. */
  lemma ReportAfterSync(
      jobs: seq<Job>, h: seq<Event>, t: Tables, x: seq<SpendRecord>, y: seq<SpendRecord>,
      accounts: seq<Account>, le: Collation, keep: string -> bool, i: nat)
    requires NoRepeats(Accounts(jobs)) && Complete(Programs(jobs), h) && InRange(Programs(jobs), h) && i < |jobs|
    requires TableOf(x, t) && TableOf(y, RunOps(Ops(Programs(jobs), h), t))
    ensures forall g <- Report(y, accounts, le, keep) :: g.accountId == jobs[i].account.accountId ==>
      g.totalSpend == TotalAfter(jobs[i], x, g.date)
  {
    ReportShowsTable(y, accounts, le, keep);
    TotalsAfterSync(jobs, h, t, x, y);
    forall g <- Report(y, accounts, le, keep) | g.accountId == jobs[i].account.accountId
      ensures g.totalSpend == TotalAfter(jobs[i], x, g.date)
    {
    }
  }
}
