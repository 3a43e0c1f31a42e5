/**
Spend summed by account and date. spend_raw is joined to ad_accounts, where one account can stand once per token,
through a subquery that keeps one row per account. Spend is exact.
*/
module Aggregate {
  import opened Filters
  import opened Wrappers
  import opened Store

  datatype Account = Account(accountId: string, tokenId: string, name: string, currency: string)

  datatype Joined = Joined(row: SpendRow, account: Option<Account>)

  datatype SpendByAccount = SpendByAccount(accountId: string, accountName: string, currency: string, date: string,
    totalSpend: real)

  /** How the database orders text, for MAX. */
  type Collation = (string, string) -> bool

  ghost predicate TotalOrder(le: Collation) {
    && (forall x, y :: le(x, y) || le(y, x))
    && (forall x, y, z :: le(x, y) && le(y, z) ==> le(x, z))
  }

  // ----- One row for each account, with its largest name and currency -----

  function Max(xs: seq<string>, le: Collation): (m: string)
    requires xs != []
    ensures m in xs
  {
    if |xs| == 1 then xs[0]
    else
      var rest := Max(xs[1..], le);
      if le(rest, xs[0]) then xs[0] else rest
  }

  lemma {:induction false} MaxIsLargest(xs: seq<string>, le: Collation)
    requires xs != [] && TotalOrder(le)
    ensures forall x <- xs :: le(x, Max(xs, le))
  {
    if |xs| <= 1 {
    } else {
      MaxIsLargest(xs[1..], le);
    }
  }

  /** The distinct elements, in the order of their first appearance. */
  function Distinct<T(==)>(xs: seq<T>): (ys: seq<T>)
    ensures (forall y <- ys :: y in xs) && forall x <- xs :: x in ys
    ensures forall i, j :: 0 <= i < j < |ys| ==> ys[i] != ys[j]
  {
    if xs == [] then []
    else
      var rest := Distinct(xs[..|xs| - 1]);
      if xs[|xs| - 1] in rest then rest else rest + [xs[|xs| - 1]]
  }

  function Lists(id: string): Account -> bool {
    (a: Account) => a.accountId == id
  }

  function Listings(accounts: seq<Account>, id: string): (of: seq<Account>)
    ensures forall a <- of :: a in accounts && a.accountId == id
    ensures forall a <- accounts :: a.accountId == id ==> a in of
  {
    FilterAre(accounts, Lists(id));
    Filter(accounts, Lists(id))
  }

  /** The one row the subquery gives for an account that is listed. */
  function Merged(accounts: seq<Account>, le: Collation, id: string): Account {
    var of := Listings(accounts, id);
    if of == [] then Account(id, "", "", "")
    else Account(id, "", Max(Map((a: Account) => a.name, of), le), Max(Map((a: Account) => a.currency, of), le))
  }

  function Subquery(accounts: seq<Account>, le: Collation): seq<Account> {
    Map((id: string) => Merged(accounts, le, id), Distinct(Map((a: Account) => a.accountId, accounts)))
  }

  // ----- Spend rows joined to accounts -----

  function JoinRow(row: SpendRow, accounts: seq<Account>): (js: seq<Joined>)
    ensures js != [] && forall j <- js :: j.row == row
  {
    var of := Listings(accounts, row.key.account);
    if of == [] then [Joined(row, None)] else Map((a: Account) => Joined(row, Some(a)), of)
  }

  function LeftJoin(rows: seq<SpendRow>, accounts: seq<Account>): seq<Joined> {
    if rows == [] then [] else JoinRow(rows[0], accounts) + LeftJoin(rows[1..], accounts)
  }

  function RowOf(): Joined -> SpendRow {
    (j: Joined) => j.row
  }

  function RowsOf(js: seq<Joined>): seq<SpendRow> {
    Map(RowOf(), js)
  }

  predicate AtMostOne(rows: seq<SpendRow>, accounts: seq<Account>) {
    forall r <- rows :: |Listings(accounts, r.key.account)| <= 1
  }

  lemma AtMostOneStep(rows: seq<SpendRow>, accounts: seq<Account>)
    requires rows != []
    ensures AtMostOne(rows, accounts)
      <==> |Listings(accounts, rows[0].key.account)| <= 1 && AtMostOne(rows[1..], accounts)
  {
    assert rows == [rows[0]] + rows[1..];
  }

  lemma {:induction false} JoinIsLonger(rows: seq<SpendRow>, accounts: seq<Account>)
    ensures |LeftJoin(rows, accounts)| >= |rows|
    ensures |LeftJoin(rows, accounts)| == |rows| <==> AtMostOne(rows, accounts)
  {
    if rows == [] {
    } else {
      JoinIsLonger(rows[1..], accounts);
      AtMostOneStep(rows, accounts);
    }
  }

  lemma OneJoined(row: SpendRow, accounts: seq<Account>)
    requires |Listings(accounts, row.key.account)| <= 1
    ensures RowsOf(JoinRow(row, accounts)) == [row]
  {
  }

  /** A join leaves the rows as they are exactly when no account of theirs is listed more than once. */
  lemma {:induction false} FanOutExactly(rows: seq<SpendRow>, accounts: seq<Account>)
    ensures RowsOf(LeftJoin(rows, accounts)) == rows <==> AtMostOne(rows, accounts)
  {
    JoinIsLonger(rows, accounts);
    if rows == [] {
    } else if AtMostOne(rows, accounts) {
      FanOutExactly(rows[1..], accounts);
      AtMostOneStep(rows, accounts);
      OneJoined(rows[0], accounts);
      MapSplit(RowOf(), JoinRow(rows[0], accounts), LeftJoin(rows[1..], accounts));
    }
  }

  lemma {:induction false} OneListing(xs: seq<Account>, id: string)
    requires forall i, j :: 0 <= i < j < |xs| ==> xs[i].accountId != xs[j].accountId
    ensures |Listings(xs, id)| <= 1
  {
    if xs == [] {
    } else {
      OneListing(xs[1..], id);
      FilterFirst(xs, Lists(id));
      if xs[0].accountId == id {
        FilterNone(xs[1..], Lists(id));
      }
    }
  }

  /** Through the subquery the join never multiplies a row, however many tokens list its account. */
  lemma JoinNeverFansOut(rows: seq<SpendRow>, accounts: seq<Account>, le: Collation)
    ensures RowsOf(LeftJoin(rows, Subquery(accounts, le))) == rows
  {
    forall r <- rows ensures |Listings(Subquery(accounts, le), r.key.account)| <= 1 {
      OneListing(Subquery(accounts, le), r.key.account);
    }
    FanOutExactly(rows, Subquery(accounts, le));
  }

  // ----- Kept dates, summed by account and date -----

  function KeepsJoined(keep: string -> bool): Joined -> bool {
    (j: Joined) => keep(j.row.key.date)
  }

  function KeepsRow(keep: string -> bool): SpendRow -> bool {
    (r: SpendRow) => keep(r.key.date)
  }

  /** What a WHERE clause on the date keeps, of the joined rows and of the raw ones. */
  function Dated(js: seq<Joined>, keep: string -> bool): (kept: seq<Joined>)
    ensures forall j <- kept :: j in js
  {
    FilterAre(js, KeepsJoined(keep));
    Filter(js, KeepsJoined(keep))
  }

  function DatedRows(rows: seq<SpendRow>, keep: string -> bool): seq<SpendRow> {
    Filter(rows, KeepsRow(keep))
  }

  function GroupKey(r: SpendRow): (string, string) {
    (r.key.account, r.key.date)
  }

  function SpendSum(rows: seq<SpendRow>): real {
    if rows == [] then 0.0 else rows[0].data.spend + SpendSum(rows[1..])
  }

  function JoinedIn(k: (string, string)): Joined -> bool {
    (j: Joined) => GroupKey(j.row) == k
  }

  function InGroup(js: seq<Joined>, k: (string, string)): (of: seq<Joined>)
    ensures (forall j <- of :: j in js && GroupKey(j.row) == k) && forall j <- js :: GroupKey(j.row) == k ==> j in of
  {
    FilterAre(js, JoinedIn(k));
    Filter(js, JoinedIn(k))
  }

  function GroupSum(js: seq<Joined>, k: (string, string)): real {
    SpendSum(RowsOf(InGroup(js, k)))
  }

  /** A group's row. Name and currency are taken from one of the group's rows, here the first. */
  function GroupRow(js: seq<Joined>, k: (string, string)): SpendByAccount {
    var of := InGroup(js, k);
    var account := if of == [] then None else of[0].account;
    SpendByAccount(k.0, if account.Some? then account.value.name else "",
      if account.Some? then account.value.currency else "USD", k.1, GroupSum(js, k))
  }

  function GroupKeys(js: seq<Joined>): seq<(string, string)> {
    Distinct(Map((j: Joined) => GroupKey(j.row), js))
  }

  function GroupRows(js: seq<Joined>, ks: seq<(string, string)>): seq<SpendByAccount> {
    if ks == [] then [] else [GroupRow(js, ks[0])] + GroupRows(js, ks[1..])
  }

  /** querySpendAggregated, up to the order of its result: `keep` is the WHERE clause, on the row's date. */
  function SpendAggregated(
      rows: seq<SpendRow>, accounts: seq<Account>, le: Collation, keep: string -> bool): seq<SpendByAccount> {
    var js := Dated(LeftJoin(rows, Subquery(accounts, le)), keep);
    GroupRows(js, GroupKeys(js))
  }

  function OfDate(date: string): SpendRow -> bool {
    (r: SpendRow) => r.key.date == date
  }

  /** The dashboard's COALESCE(SUM(spend), 0) over one date, with no join. */
  function DateTotal(rows: seq<SpendRow>, date: string): real {
    SpendSum(Filter(rows, OfDate(date)))
  }

  function Total(gs: seq<SpendByAccount>): real {
    if gs == [] then 0.0 else gs[0].totalSpend + Total(gs[1..])
  }

  // ----- Nothing is lost, nothing counted twice -----

  lemma DatedJoin(rows: seq<SpendRow>, accounts: seq<Account>, le: Collation, keep: string -> bool)
    ensures RowsOf(Dated(LeftJoin(rows, Subquery(accounts, le)), keep)) == DatedRows(rows, keep)
  {
    JoinNeverFansOut(rows, accounts, le);
    FilterMap(LeftJoin(rows, Subquery(accounts, le)), RowOf(), KeepsJoined(keep), KeepsRow(keep));
  }

  lemma GroupGrows(js: seq<Joined>, k: (string, string))
    requires js != []
    ensures GroupSum(js, k) == GroupSum(js[1..], k) + if GroupKey(js[0].row) == k then js[0].row.data.spend else 0.0
  {
    FilterFirst(js, JoinedIn(k));
    if GroupKey(js[0].row) == k {
      assert RowsOf(InGroup(js, k))[1..] == RowsOf(InGroup(js[1..], k));
    } else {
      assert [] + InGroup(js[1..], k) == InGroup(js[1..], k);
    }
  }

  /** A joined row adds its spend to the groups exactly once. */
  lemma {:induction false} RowCountsOnce(js: seq<Joined>, ks: seq<(string, string)>)
    requires js != [] && NoRepeats(ks)
    ensures Total(GroupRows(js, ks))
      == Total(GroupRows(js[1..], ks)) + if GroupKey(js[0].row) in ks then js[0].row.data.spend else 0.0
  {
    if ks == [] {
    } else {
      RowCountsOnce(js, ks[1..]);
      GroupGrows(js, ks[0]);
      assert GroupKey(js[0].row) in ks <==> GroupKey(js[0].row) == ks[0] || GroupKey(js[0].row) in ks[1..];
      assert ks[0] !in ks[1..];
    }
  }

  lemma SumOfJoined(js: seq<Joined>)
    requires js != []
    ensures SpendSum(RowsOf(js)) == js[0].row.data.spend + SpendSum(RowsOf(js[1..]))
  {
    assert RowsOf(js)[1..] == RowsOf(js[1..]);
  }

  predicate InKeys(js: seq<Joined>, ks: seq<(string, string)>) {
    forall i :: 0 <= i < |js| ==> GroupKey(js[i].row) in ks
  }

  lemma {:induction false} GroupsSumUp(js: seq<Joined>, ks: seq<(string, string)>)
    requires NoRepeats(ks) && InKeys(js, ks)
    ensures Total(GroupRows(js, ks)) == SpendSum(RowsOf(js))
  {
    if js == [] {
      EmptyGroups(ks);
    } else {
      RowCountsOnce(js, ks);
      assert GroupKey(js[0].row) in ks && InKeys(js[1..], ks);
      GroupsSumUp(js[1..], ks);
      SumOfJoined(js);
    }
  }

  lemma {:induction false} EmptyGroups(ks: seq<(string, string)>)
    ensures Total(GroupRows([], ks)) == 0.0
  {
    if ks == [] {
    } else {
      EmptyGroups(ks[1..]);
    }
  }

  lemma KeysCover(js: seq<Joined>)
    ensures NoRepeats(GroupKeys(js)) && forall j <- js :: GroupKey(j.row) in GroupKeys(js)
  {
    var keys := Map((j: Joined) => GroupKey(j.row), js);
    forall j <- js ensures GroupKey(j.row) in GroupKeys(js) {
      var i :| 0 <= i < |js| && js[i] == j;
      assert keys[i] == GroupKey(j.row);
    }
  }

  /** Every group has a row. */
  lemma KeyHasRow(js: seq<Joined>, k: (string, string)) returns (i: nat)
    requires k in GroupKeys(js)
    ensures i < |js| && GroupKey(js[i].row) == k
  {
    var keys := Map((j: Joined) => GroupKey(j.row), js);
    i :| 0 <= i < |keys| && keys[i] == k;
  }

  /** The spend of the raw rows of the dates kept, and of those of one account and date. */
  function KeptSpend(rows: seq<SpendRow>, keep: string -> bool): real {
    if rows == [] then 0.0
    else
      var r := rows[0];
      (if keep(r.key.date) then r.data.spend else 0.0) + KeptSpend(rows[1..], keep)
  }

  function SpendOn(rows: seq<SpendRow>, account: string, date: string): real {
    if rows == [] then 0.0
    else
      var r := rows[0];
      (if r.key.account == account && r.key.date == date then r.data.spend else 0.0) + SpendOn(rows[1..], account, date)
  }

  lemma {:induction false} SumOfKept(rows: seq<SpendRow>, keep: string -> bool)
    ensures SpendSum(DatedRows(rows, keep)) == KeptSpend(rows, keep)
  {
    if rows == [] {
    } else {
      SumOfKept(rows[1..], keep);
      FilterFirst(rows, KeepsRow(keep));
      SumAfterFirst(DatedRows(rows, keep), rows[0], DatedRows(rows[1..], keep), keep(rows[0].key.date));
    }
  }

  lemma SumAfterFirst(all: seq<SpendRow>, x: SpendRow, rest: seq<SpendRow>, kept: bool)
    requires all == (if kept then [x] else []) + rest
    ensures SpendSum(all) == (if kept then x.data.spend else 0.0) + SpendSum(rest)
  {
    if kept {
      assert all[1..] == rest;
    } else {
      assert all == rest;
    }
  }

  /** The totals add up to the spend of the rows of the dates kept, each counted once. */
  lemma SpendIsConserved(rows: seq<SpendRow>, accounts: seq<Account>, le: Collation, keep: string -> bool)
    ensures Total(SpendAggregated(rows, accounts, le, keep)) == KeptSpend(rows, keep)
  {
    var js := Dated(LeftJoin(rows, Subquery(accounts, le)), keep);
    DatedJoin(rows, accounts, le, keep);
    KeysCover(js);
    assert forall i :: 0 <= i < |js| ==> js[i] in js;
    GroupsSumUp(js, GroupKeys(js));
    SumOfKept(rows, keep);
  }

  /** For one date, the table and the dashboard's tile agree. */
  lemma DashboardAgrees(rows: seq<SpendRow>, accounts: seq<Account>, le: Collation, date: string)
    ensures Total(SpendAggregated(rows, accounts, le, d => d == date)) == DateTotal(rows, date)
  {
    SpendIsConserved(rows, accounts, le, d => d == date);
    SumOfKept(rows, d => d == date);
    SameFilter(rows, KeepsRow(d => d == date), OfDate(date));
  }

  // ----- What each row of the result says -----

  lemma {:induction false} GroupRowsAre(js: seq<Joined>, ks: seq<(string, string)>)
    ensures |GroupRows(js, ks)| == |ks| && forall i :: 0 <= i < |ks| ==> GroupRows(js, ks)[i] == GroupRow(js, ks[i])
  {
    if ks == [] {
    } else {
      GroupRowsAre(js, ks[1..]);
    }
  }

  function KeyOf(g: SpendByAccount): (string, string) {
    (g.accountId, g.date)
  }

  function RowIn(k: (string, string)): SpendRow -> bool {
    (r: SpendRow) => GroupKey(r) == k
  }

  function OfGroup(rows: seq<SpendRow>, k: (string, string)): seq<SpendRow> {
    Filter(rows, RowIn(k))
  }

  predicate HasGroup(agg: seq<SpendByAccount>, k: (string, string)) {
    exists g <- agg :: KeyOf(g) == k
  }

  predicate HasRow(rows: seq<SpendRow>, k: (string, string)) {
    exists r <- rows :: GroupKey(r) == k
  }

  lemma {:induction false} GroupRowsKeys(js: seq<Joined>, ks: seq<(string, string)>)
    ensures |GroupRows(js, ks)| == |ks| && forall i :: 0 <= i < |ks| ==> KeyOf(GroupRows(js, ks)[i]) == ks[i]
  {
    if ks == [] {
    } else {
      GroupRowsKeys(js, ks[1..]);
    }
  }

  lemma KeysAreOnce(js: seq<Joined>)
    ensures var agg := GroupRows(js, GroupKeys(js));
      forall i, j :: 0 <= i < j < |agg| ==> KeyOf(agg[i]) != KeyOf(agg[j])
  {
    GroupRowsKeys(js, GroupKeys(js));
  }

  lemma KeyHasGroup(js: seq<Joined>, k: (string, string))
    requires k in GroupKeys(js)
    ensures HasGroup(GroupRows(js, GroupKeys(js)), k)
  {
    var ks, agg := GroupKeys(js), GroupRows(js, GroupKeys(js));
    GroupRowsKeys(js, ks);
    var n :| 0 <= n < |ks| && ks[n] == k;
    assert agg[n] in agg && KeyOf(agg[n]) == k;
  }

  lemma EveryRowHasItsGroup(js: seq<Joined>)
    ensures forall r <- RowsOf(js) :: HasGroup(GroupRows(js, GroupKeys(js)), GroupKey(r))
  {
    KeysCover(js);
    forall r <- RowsOf(js) ensures HasGroup(GroupRows(js, GroupKeys(js)), GroupKey(r)) {
      var i :| 0 <= i < |js| && RowsOf(js)[i] == r;
      assert js[i] in js;
      KeyHasGroup(js, GroupKey(r));
    }
  }

  lemma EveryGroupHasRows(js: seq<Joined>)
    ensures forall g <- GroupRows(js, GroupKeys(js)) :: HasRow(RowsOf(js), KeyOf(g))
  {
    var ks, agg := GroupKeys(js), GroupRows(js, GroupKeys(js));
    GroupRowsKeys(js, ks);
    forall g <- agg ensures HasRow(RowsOf(js), KeyOf(g)) {
      var n :| 0 <= n < |agg| && agg[n] == g;
      var i := KeyHasRow(js, ks[n]);
      assert RowsOf(js)[i] in RowsOf(js);
    }
  }

  lemma GroupTotals(js: seq<Joined>)
    ensures forall g <- GroupRows(js, GroupKeys(js)) ::
      g.totalSpend == SpendSum(OfGroup(RowsOf(js), KeyOf(g)))
  {
    var agg := GroupRows(js, GroupKeys(js));
    GroupRowsAre(js, GroupKeys(js));
    forall g <- agg ensures g.totalSpend == SpendSum(OfGroup(RowsOf(js), KeyOf(g))) {
      var n :| 0 <= n < |agg| && agg[n] == g;
      InGroupRows(js, KeyOf(g));
    }
  }

  /** Each account and date with a row appears once, with the spend of just those rows, and nothing else appears. */
  predicate Summarises(agg: seq<SpendByAccount>, rows: seq<SpendRow>) {
    && (forall i, j :: 0 <= i < j < |agg| ==> KeyOf(agg[i]) != KeyOf(agg[j]))
    && (forall r <- rows :: HasGroup(agg, GroupKey(r)))
    && (forall g <- agg :: HasRow(rows, KeyOf(g)))
    && (forall g <- agg :: g.totalSpend == SpendSum(OfGroup(rows, KeyOf(g))))
  }

  lemma GroupsSummarise(js: seq<Joined>)
    ensures Summarises(GroupRows(js, GroupKeys(js)), RowsOf(js))
  {
    KeysAreOnce(js);
    EveryRowHasItsGroup(js);
    EveryGroupHasRows(js);
    GroupTotals(js);
  }

  lemma AggregateSummarises(rows: seq<SpendRow>, accounts: seq<Account>, le: Collation, keep: string -> bool)
    ensures Summarises(SpendAggregated(rows, accounts, le, keep), DatedRows(rows, keep))
  {
    GroupsSummarise(Dated(LeftJoin(rows, Subquery(accounts, le)), keep));
    DatedJoin(rows, accounts, le, keep);
  }

  lemma {:induction false} SumOfGroup(rows: seq<SpendRow>, account: string, date: string)
    ensures SpendSum(OfGroup(rows, (account, date))) == SpendOn(rows, account, date)
  {
    if rows == [] {
    } else {
      SumOfGroup(rows[1..], account, date);
      FilterFirst(rows, RowIn((account, date)));
      SumAfterFirst(OfGroup(rows, (account, date)), rows[0], OfGroup(rows[1..], (account, date)),
        rows[0].key.account == account && rows[0].key.date == date);
    }
  }

  /** This result row is of that account and date. */
  predicate IsOf(g: SpendByAccount, account: string, date: string) {
    g.accountId == account && g.date == date
  }

  predicate AllDiffer(agg: seq<SpendByAccount>) {
    forall i, j :: 0 <= i < j < |agg| ==> !IsOf(agg[j], agg[i].accountId, agg[i].date)
  }

  /** For every raw row of a date kept there is exactly one result row of its account and date; there are no others; and
      each shows the spend of all raw rows of its account and date. */
  predicate OnePerAccountAndDate(agg: seq<SpendByAccount>, rows: seq<SpendRow>, keep: string -> bool) {
    && (forall r <- rows :: keep(r.key.date) ==> exists g <- agg :: IsOf(g, r.key.account, r.key.date))
    && AllDiffer(agg)
    && (forall g <- agg :: keep(g.date) && exists r <- rows :: IsOf(g, r.key.account, r.key.date))
    && (forall g <- agg :: g.totalSpend == SpendOn(rows, g.accountId, g.date))
  }

  lemma EachGroupOnce(rows: seq<SpendRow>, accounts: seq<Account>, le: Collation, keep: string -> bool)
    ensures OnePerAccountAndDate(SpendAggregated(rows, accounts, le, keep), rows, keep)
  {
    var agg, kept := SpendAggregated(rows, accounts, le, keep), DatedRows(rows, keep);
    AggregateSummarises(rows, accounts, le, keep);
    FilterAre(rows, KeepsRow(keep));
    forall r <- rows | keep(r.key.date) ensures exists g <- agg :: IsOf(g, r.key.account, r.key.date) {
      assert HasGroup(agg, GroupKey(r));
      var g :| g in agg && KeyOf(g) == GroupKey(r);
      assert IsOf(g, r.key.account, r.key.date);
    }
    forall g <- agg
      ensures keep(g.date) && exists r <- rows :: IsOf(g, r.key.account, r.key.date)
      ensures g.totalSpend == SpendOn(rows, g.accountId, g.date)
    {
      assert HasRow(kept, KeyOf(g));
      var r :| r in kept && GroupKey(r) == KeyOf(g);
      assert r in rows && IsOf(g, r.key.account, r.key.date);
      FilterTwice(rows, RowIn(KeyOf(g)), KeepsRow(keep));
      SumOfGroup(rows, g.accountId, g.date);
    }
  }

  lemma InGroupRows(js: seq<Joined>, k: (string, string))
    ensures RowsOf(InGroup(js, k)) == OfGroup(RowsOf(js), k)
  {
    FilterMap(js, RowOf(), JoinedIn(k), RowIn(k));
  }

  /** What a row of spend is joined to depends on its account id alone. */
  function Partner(accounts: seq<Account>, le: Collation, id: string): Option<Account> {
    if Listings(accounts, id) == [] then None else Some(Merged(accounts, le, id))
  }

  lemma SubqueryGives(accounts: seq<Account>, le: Collation, id: string)
    ensures forall a <- Listings(Subquery(accounts, le), id) :: a == Merged(accounts, le, id)
  {
    var subs := Subquery(accounts, le);
    forall a <- Listings(subs, id) ensures a == Merged(accounts, le, id) {
      var i :| 0 <= i < |subs| && subs[i] == a;
    }
  }

  lemma SubqueryHas(accounts: seq<Account>, le: Collation, id: string)
    ensures (exists s <- Subquery(accounts, le) :: s.accountId == id) <==> exists a <- accounts :: a.accountId == id
  {
    var all := Map((a: Account) => a.accountId, accounts);
    var ids, subs := Distinct(all), Subquery(accounts, le);
    if s :| s in subs && s.accountId == id {
      var i :| 0 <= i < |subs| && subs[i] == s;
      assert ids[i] in ids;
      var n :| 0 <= n < |all| && all[n] == ids[i];
      assert accounts[n] in accounts;
    }
    if a :| a in accounts && a.accountId == id {
      var n :| 0 <= n < |accounts| && accounts[n] == a;
      assert all[n] in all;
      var i :| 0 <= i < |ids| && ids[i] == id;
      assert subs[i] in subs;
    }
  }

  lemma ListedOrNot(xs: seq<Account>, id: string)
    ensures Listings(xs, id) != [] <==> exists a <- xs :: a.accountId == id
  {
    if Listings(xs, id) == [] {
    } else {
      assert Listings(xs, id)[0] in Listings(xs, id);
    }
  }

  lemma SubqueryPartner(row: SpendRow, accounts: seq<Account>, le: Collation)
    ensures forall j <- JoinRow(row, Subquery(accounts, le)) :: j.account == Partner(accounts, le, row.key.account)
  {
    var id, subs := row.key.account, Subquery(accounts, le);
    var of := Listings(subs, id);
    SubqueryGives(accounts, le, id);
    SubqueryHas(accounts, le, id);
    ListedOrNot(subs, id);
    ListedOrNot(accounts, id);
    forall j <- JoinRow(row, subs) ensures j.account == Partner(accounts, le, id) {
      if of != [] {
        var i :| 0 <= i < |of| && j == Joined(row, Some(of[i]));
        assert of[i] in of;
      }
    }
  }

  lemma {:induction false} JoinedPartner(rows: seq<SpendRow>, accounts: seq<Account>, le: Collation)
    ensures forall j <- LeftJoin(rows, Subquery(accounts, le)) :: j.account == Partner(accounts, le, j.row.key.account)
  {
    if rows == [] {
    } else {
      JoinedPartner(rows[1..], accounts, le);
      SubqueryPartner(rows[0], accounts, le);
    }
  }

  /** The name and currency shown: the largest listed for the account, or none and USD when it is not listed. */
  predicate Labelled(g: SpendByAccount, accounts: seq<Account>, le: Collation) {
    if forall a <- accounts :: a.accountId != g.accountId then g.accountName == "" && g.currency == "USD"
    else
      && (exists a <- accounts :: a.accountId == g.accountId && a.name == g.accountName)
      && (exists a <- accounts :: a.accountId == g.accountId && a.currency == g.currency)
      && forall a <- accounts :: a.accountId == g.accountId ==> le(a.name, g.accountName) && le(a.currency, g.currency)
  }

  lemma MergedIsLargest(accounts: seq<Account>, le: Collation, id: string)
    requires TotalOrder(le) && Listings(accounts, id) != []
    ensures var of, m := Listings(accounts, id), Merged(accounts, le, id);
      && (exists a <- of :: a.name == m.name) && (forall a <- of :: le(a.name, m.name))
      && (exists a <- of :: a.currency == m.currency) && (forall a <- of :: le(a.currency, m.currency))
  {
    var of := Listings(accounts, id);
    var names, currencies := Map((a: Account) => a.name, of), Map((a: Account) => a.currency, of);
    MaxIsLargest(names, le);
    MaxIsLargest(currencies, le);
    var i :| 0 <= i < |names| && names[i] == Max(names, le);
    var n :| 0 <= n < |currencies| && currencies[n] == Max(currencies, le);
    assert of[i] in of && of[n] in of;
    forall a <- of ensures a.name in names && a.currency in currencies {
      var k :| 0 <= k < |of| && of[k] == a;
      assert names[k] == a.name && currencies[k] == a.currency;
    }
  }

  lemma GroupPartner(js: seq<Joined>, k: (string, string), accounts: seq<Account>, le: Collation)
    requires forall j <- js :: j.account == Partner(accounts, le, j.row.key.account)
    requires k in GroupKeys(js)
    ensures InGroup(js, k) != [] && InGroup(js, k)[0].account == Partner(accounts, le, k.0)
  {
    var i := KeyHasRow(js, k);
    assert js[i] in InGroup(js, k);
    assert InGroup(js, k)[0] in InGroup(js, k);
  }

  /** The row's name and currency are those of its account's partner. */
  predicate LabelledBy(g: SpendByAccount, p: Option<Account>) {
    && g.accountName == (if p.Some? then p.value.name else "")
    && g.currency == (if p.Some? then p.value.currency else "USD")
  }

  lemma PartnerLabels(rows: seq<SpendRow>, accounts: seq<Account>, le: Collation, keep: string -> bool)
    ensures forall g <- SpendAggregated(rows, accounts, le, keep) :: LabelledBy(g, Partner(accounts, le, g.accountId))
  {
    var js := Dated(LeftJoin(rows, Subquery(accounts, le)), keep);
    var ks, agg := GroupKeys(js), SpendAggregated(rows, accounts, le, keep);
    JoinedPartner(rows, accounts, le);
    GroupRowsAre(js, ks);
    forall g <- agg ensures LabelledBy(g, Partner(accounts, le, g.accountId)) {
      var n :| 0 <= n < |agg| && agg[n] == g;
      GroupPartner(js, ks[n], accounts, le);
    }
  }

  lemma LabelsAreRight(rows: seq<SpendRow>, accounts: seq<Account>, le: Collation, keep: string -> bool)
    requires TotalOrder(le)
    ensures forall g <- SpendAggregated(rows, accounts, le, keep) :: Labelled(g, accounts, le)
  {
    PartnerLabels(rows, accounts, le, keep);
    forall g <- SpendAggregated(rows, accounts, le, keep) ensures Labelled(g, accounts, le) {
      ListedOrNot(accounts, g.accountId);
      if Listings(accounts, g.accountId) != [] {
        MergedIsLargest(accounts, le, g.accountId);
      }
    }
  }
}
