/**
The spend report over the store's table: it depends on what the table holds and on nothing else, so neither the schedule
of a sync nor a repeated sync shows in it.
*/
module Reports {
  import opened Filters
  import opened Wrappers
  import opened Store
  import opened Aggregate
  import opened Pool
  import opened Histories
  import opened SyncJobs

  // ----- Orderings of the same rows -----

  lemma {:induction false} SumSplit(x: seq<SpendRow>, y: seq<SpendRow>)
    ensures SpendSum(x + y) == SpendSum(x) + SpendSum(y)
  {
    if x == [] {
      assert x + y == y;
    } else {
      assert (x + y)[1..] == x[1..] + y;
      SumSplit(x[1..], y);
    }
  }

  lemma WithoutOne(x: SpendRow, rest: seq<SpendRow>, a: seq<SpendRow>, b: seq<SpendRow>)
    requires multiset([x] + rest) == multiset(a + ([x] + b))
    ensures multiset(rest) == multiset(a + b)
  {
    forall r ensures multiset(rest)[r] == multiset(a + b)[r] {
      assert multiset([x] + rest)[r] == multiset(a + ([x] + b))[r];
    }
  }

  lemma {:induction false} SumIgnoresOrder(x: seq<SpendRow>, y: seq<SpendRow>)
    requires multiset(x) == multiset(y)
    ensures SpendSum(x) == SpendSum(y)
  {
    if x == [] {
      assert |multiset(y)| == 0;
    } else {
      assert x == [x[0]] + x[1..];
      assert x[0] in multiset(y);
      var i :| 0 <= i < |y| && y[i] == x[0];
      var a, b := y[..i], y[i + 1..];
      assert y == a + ([x[0]] + b);
      WithoutOne(x[0], x[1..], a, b);
      SumIgnoresOrder(x[1..], a + b);
      SumSplit(a, [x[0]] + b);
      SumSplit(a, b);
    }
  }

  lemma FilterIgnoresOrder(x: seq<SpendRow>, y: seq<SpendRow>, keep: SpendRow -> bool)
    requires multiset(x) == multiset(y)
    ensures multiset(Filter(x, keep)) == multiset(Filter(y, keep))
  {
    forall r ensures multiset(Filter(x, keep))[r] == multiset(Filter(y, keep))[r] {
      FilterCounted(x, keep, r);
      FilterCounted(y, keep, r);
    }
  }

  lemma {:induction false} OnceEach<T>(xs: seq<T>, x: T)
    requires NoRepeats(xs)
    ensures multiset(xs)[x] == if x in xs then 1 else 0
  {
    if xs == [] {
    } else {
      OnceEach(xs[1..], x);
      assert xs == [xs[0]] + xs[1..];
    }
  }

  lemma SameElements<T>(xs: seq<T>, ys: seq<T>)
    requires NoRepeats(xs) && NoRepeats(ys) && forall x :: x in xs <==> x in ys
    ensures multiset(xs) == multiset(ys)
  {
    forall x ensures multiset(xs)[x] == multiset(ys)[x] {
      OnceEach(xs, x);
      OnceEach(ys, x);
    }
  }

  // ----- The report of a table -----

  lemma RowInOther(
      x: seq<SpendRow>, y: seq<SpendRow>, accounts: seq<Account>, le: Collation, keep: string -> bool,
      g: SpendByAccount)
    requires multiset(x) == multiset(y)
    ensures g in SpendAggregated(x, accounts, le, keep) ==> g in SpendAggregated(y, accounts, le, keep)
  {
    if g in SpendAggregated(x, accounts, le, keep) {
      AggregateSummarises(x, accounts, le, keep);
      AggregateSummarises(y, accounts, le, keep);
      PartnerLabels(x, accounts, le, keep);
      PartnerLabels(y, accounts, le, keep);
      var kept, kept' := DatedRows(x, keep), DatedRows(y, keep);
      FilterIgnoresOrder(x, y, KeepsRow(keep));
      FilterIgnoresOrder(kept, kept', RowIn(KeyOf(g)));
      SumIgnoresOrder(OfGroup(kept, KeyOf(g)), OfGroup(kept', KeyOf(g)));
      assert HasRow(kept, KeyOf(g));
      var r :| r in kept && GroupKey(r) == KeyOf(g);
      assert r in multiset(kept');
      assert HasGroup(SpendAggregated(y, accounts, le, keep), GroupKey(r));
      var g' :| g' in SpendAggregated(y, accounts, le, keep) && KeyOf(g') == KeyOf(g);
      assert g' == g;
    }
  }

  /** The order in which the rows are stored does not show. */
  lemma ReportIgnoresOrder(
      x: seq<SpendRow>, y: seq<SpendRow>, accounts: seq<Account>, le: Collation, keep: string -> bool)
    requires multiset(x) == multiset(y)
    ensures multiset(SpendAggregated(x, accounts, le, keep)) == multiset(SpendAggregated(y, accounts, le, keep))
  {
    AggregateSummarises(x, accounts, le, keep);
    AggregateSummarises(y, accounts, le, keep);
    var p, q := SpendAggregated(x, accounts, le, keep), SpendAggregated(y, accounts, le, keep);
    forall g ensures g in p <==> g in q {
      RowInOther(x, y, accounts, le, keep, g);
      RowInOther(y, x, accounts, le, keep, g);
    }
    SameElements(p, q);
  }

  function TableRows(table: seq<SpendRecord>): seq<SpendRow> {
    Map((r: SpendRecord) => SpendRow(r.key, r.data), table)
  }

  lemma RowInOtherTable(x: seq<SpendRecord>, y: seq<SpendRecord>, r: SpendRow)
    requires UniqueKeys(x) && UniqueKeys(y) && Contents(x) == Contents(y) && r in TableRows(x)
    ensures r in TableRows(y)
  {
    ContentsAre(x);
    ContentsAre(y);
    var i :| 0 <= i < |x| && TableRows(x)[i] == r;
    assert HasKey(y, x[i].key);
    var j :| 0 <= j < |y| && y[j].key == x[i].key;
    assert TableRows(y)[j] == r;
  }

  /** The report of a date or a range, as the store's table gives it. */
  function Report(
      table: seq<SpendRecord>, accounts: seq<Account>, le: Collation, keep: string -> bool): multiset<SpendByAccount> {
    multiset(SpendAggregated(TableRows(table), accounts, le, keep))
  }

  /** The spend the table holds for one account and date. */
  function StoredOn(table: seq<SpendRecord>, account: string, date: string): real {
    if table == [] then 0.0
    else
      var r, rest := table[0], StoredOn(table[1..], account, date);
      if r.key.account == account && r.key.date == date then r.data.spend + rest else rest
  }

  lemma {:induction false} StoredIsSummed(table: seq<SpendRecord>, account: string, date: string)
    ensures SpendOn(TableRows(table), account, date) == StoredOn(table, account, date)
  {
    if table == [] {
    } else {
      StoredIsSummed(table[1..], account, date);
      assert TableRows(table)[1..] == TableRows(table[1..]);
    }
  }

  /** One report row for each account and date, of those kept, that the table has a record of, with the spend of just
      those records. */
  ghost predicate ShowsTable(report: multiset<SpendByAccount>, table: seq<SpendRecord>, keep: string -> bool) {
    && (forall r <- table :: keep(r.key.date) ==> ShowsRecord(report, r))
    && (forall g <- report :: report[g] == 1 && IsTotal(g, table, keep))
    && (forall g, g' :: g in report && g' in report && IsOf(g', g.accountId, g.date) ==> g == g')
  }

  ghost predicate ShowsRecord(report: multiset<SpendByAccount>, r: SpendRecord) {
    exists g <- report :: IsOf(g, r.key.account, r.key.date)
  }

  predicate IsTotal(g: SpendByAccount, table: seq<SpendRecord>, keep: string -> bool) {
    && keep(g.date) && g.totalSpend == StoredOn(table, g.accountId, g.date)
    && exists r <- table :: IsOf(g, r.key.account, r.key.date)
  }

  lemma RecordIsShown(table: seq<SpendRecord>, agg: seq<SpendByAccount>, keep: string -> bool, r: SpendRecord)
    requires OnePerAccountAndDate(agg, TableRows(table), keep) && r in table && keep(r.key.date)
    ensures ShowsRecord(multiset(agg), r)
  {
    var i :| 0 <= i < |table| && table[i] == r;
    assert TableRows(table)[i] in TableRows(table);
    var g :| g in agg && IsOf(g, r.key.account, r.key.date);
    assert g in multiset(agg);
  }

  lemma TotalIsStored(table: seq<SpendRecord>, keep: string -> bool, g: SpendByAccount)
    requires keep(g.date) && g.totalSpend == SpendOn(TableRows(table), g.accountId, g.date)
    requires exists r <- TableRows(table) :: IsOf(g, r.key.account, r.key.date)
    ensures IsTotal(g, table, keep)
  {
    StoredIsSummed(table, g.accountId, g.date);
    var r :| r in TableRows(table) && IsOf(g, r.key.account, r.key.date);
    var i :| 0 <= i < |table| && TableRows(table)[i] == r;
    assert table[i] in table;
  }

  lemma ShownOnce(agg: seq<SpendByAccount>)
    requires AllDiffer(agg)
    ensures NoRepeats(agg)
    ensures forall g, g' :: g in agg && g' in agg && IsOf(g', g.accountId, g.date) ==> g == g'
  {
  }

  lemma ReportShowsTable(table: seq<SpendRecord>, accounts: seq<Account>, le: Collation, keep: string -> bool)
    ensures ShowsTable(Report(table, accounts, le, keep), table, keep)
  {
    var agg := SpendAggregated(TableRows(table), accounts, le, keep);
    EachGroupOnce(TableRows(table), accounts, le, keep);
    ShownOnce(agg);
    forall r <- table | keep(r.key.date) ensures ShowsRecord(multiset(agg), r) {
      RecordIsShown(table, agg, keep, r);
    }
    forall g: SpendByAccount | g in agg ensures multiset(agg)[g] == 1 && IsTotal(g, table, keep) {
      OnceEach(agg, g);
      TotalIsStored(table, keep, g);
    }
  }

  /** Tables that hold the same give the same report, whatever the order and the ids of their rows. */
  lemma ReportIsOfContents(
      x: seq<SpendRecord>, y: seq<SpendRecord>, accounts: seq<Account>, le: Collation, keep: string -> bool)
    requires UniqueKeys(x) && UniqueKeys(y) && Contents(x) == Contents(y)
    ensures Report(x, accounts, le, keep) == Report(y, accounts, le, keep)
  {
    forall r ensures r in TableRows(x) <==> r in TableRows(y) {
      if r in TableRows(x) {
        RowInOtherTable(x, y, r);
      }
      if r in TableRows(y) {
        RowInOtherTable(y, x, r);
      }
    }
    SameElements(TableRows(x), TableRows(y));
    ReportIgnoresOrder(TableRows(x), TableRows(y), accounts, le, keep);
  }

  /** A spend table that means these tables. */
  ghost predicate TableOf(table: seq<SpendRecord>, t: Tables) {
    UniqueKeys(table) && Contents(table) == t.spend
  }

  /** Whatever the schedule of a sync, the same report. */
  lemma ReportIgnoresSchedule(
      jobs: seq<Job>, h: seq<Event>, g: seq<Event>, t: Tables, x: seq<SpendRecord>, y: seq<SpendRecord>,
      accounts: seq<Account>, le: Collation, keep: string -> bool)
    requires NoRepeats(Accounts(jobs)) && Complete(Programs(jobs), h) && Complete(Programs(jobs), g)
    ensures InRange(Programs(jobs), h) && InRange(Programs(jobs), g)
    ensures TableOf(x, RunOps(Ops(Programs(jobs), h), t)) && TableOf(y, RunOps(Ops(Programs(jobs), g), t)) ==>
      Report(x, accounts, le, keep) == Report(y, accounts, le, keep)
  {
    ScheduleIndependence(jobs, h, t);
    ScheduleIndependence(jobs, g, t);
    if TableOf(x, RunOps(Ops(Programs(jobs), h), t)) && TableOf(y, RunOps(Ops(Programs(jobs), g), t)) {
      ReportIsOfContents(x, y, accounts, le, keep);
    }
  }

  /** Nor does syncing again show: `x` is the table after a sync and `y` after it was repeated. */
  lemma ReportIgnoresResync(
      jobs: seq<Job>, h: seq<Event>, g: seq<Event>, t: Tables, x: seq<SpendRecord>, y: seq<SpendRecord>,
      accounts: seq<Account>, le: Collation, keep: string -> bool)
    requires NoRepeats(Accounts(jobs)) && Complete(Programs(jobs), h) && Complete(Programs(jobs), g)
    ensures InRange(Programs(jobs), h) && InRange(Programs(jobs), g)
    ensures var once := RunOps(Ops(Programs(jobs), h), t);
      TableOf(x, once) && TableOf(y, RunOps(Ops(Programs(jobs), g), once)) ==>
      Report(x, accounts, le, keep) == Report(y, accounts, le, keep)
  {
    ResyncChangesNothing(jobs, h, g, t);
    var once := RunOps(Ops(Programs(jobs), h), t);
    if TableOf(x, once) && TableOf(y, RunOps(Ops(Programs(jobs), g), once)) {
      ReportIsOfContents(x, y, accounts, le, keep);
    }
  }
}
