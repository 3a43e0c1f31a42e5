/**
Interleavings when several tokens list the same account, or when the syncs of two dates overlap, so that several jobs
write the same keys or the same sync_state row between each other's actions. The outcome is still that of some
sequential order, unless jobs of different dates write one key.
*/
module SyncSerial {
  import opened Wrappers
  import opened Filters
  import opened Store
  import opened Pool
  import opened Histories
  import opened SyncJobs
  import opened SyncRecord

  // ----- What the tables after some actions depend on -----

  function IsSave(): Op -> bool {
    (op: Op) => op.SaveRows?
  }

  function Saves(ops: seq<Op>): seq<Op> {
    Filter(ops, IsSave())
  }

  ghost predicate HasWrite(ops: seq<Op>, a: string) {
    LastWriteAt(ops, a).Some?
  }

  ghost predicate LastIsRetry(ops: seq<Op>, a: string) {
    var at := LastWriteAt(ops, a);
    at.Some? && ops[at.value].SetRetry?
  }

  predicate Mentions(op: Op, k: Key) {
    op.SaveRows? && exists i :: 0 <= i < |op.rows| && op.rows[i].key == k
  }

  function SavesAt(k: Key): Op -> bool {
    (op: Op) => Mentions(op, k)
  }

  /** The saves that write one key. */
  function Writing(ops: seq<Op>, k: Key): seq<Op> {
    Filter(ops, SavesAt(k))
  }

  predicate SameAt(p: map<Key, Spend>, q: map<Key, Spend>, k: Key) {
    (k in p <==> k in q) && (k in p ==> p[k] == q[k])
  }

  lemma SameMaps(p: map<Key, Spend>, q: map<Key, Spend>)
    requires forall k :: SameAt(p, q, k)
    ensures p == q
  {
    forall k | k in p || k in q ensures k in p && k in q && p[k] == q[k] {
      assert SameAt(p, q, k);
    }
  }

  lemma SaveAt(p: map<Key, Spend>, q: map<Key, Spend>, rows: seq<SpendRow>, k: Key)
    requires SameAt(p, q, k)
    ensures SameAt(PutAll(p, rows), PutAll(q, rows), k)
  {
    BatchOverrides(p, rows);
    BatchOverrides(q, rows);
  }

  lemma {:induction false} KeyFromWriters(ops: seq<Op>, t: Tables, k: Key)
    ensures SameAt(RunOps(ops, t).spend, RunOps(Writing(ops, k), t).spend, k)
  {
    if ops == [] {
    } else {
      var init, last := ops[..|ops| - 1], ops[|ops| - 1];
      KeyFromWriters(init, t, k);
      if Mentions(last, k) {
        RunOpsAppend(Writing(init, k), last, t);
        SaveAt(RunOps(init, t).spend, RunOps(Writing(init, k), t).spend, last.rows, k);
      } else {
        assert Writing(ops, k) == Writing(init, k);
        if last.SaveRows? {
          LastRowWins(RunOps(init, t).spend, last.rows, k);
        }
      }
    }
  }

  lemma WritersAreSaves(ops: seq<Op>, k: Key)
    ensures Writing(ops, k) == Writing(Saves(ops), k)
  {
    FilterTwice(ops, SavesAt(k), IsSave());
  }

  lemma {:induction false} SyncedAfter(ops: seq<Op>, t: Tables, a: string)
    ensures a in RunOps(ops, t).synced <==> a in t.synced || Mark(a) in ops
  {
    if ops == [] {
    } else {
      SyncedAfter(ops[..|ops| - 1], t, a);
    }
  }

  lemma {:induction false} RecordedAfter(ops: seq<Op>, t: Tables, a: string)
    ensures a in RunOps(ops, t).state <==> a in t.state || HasWrite(ops, a)
  {
    if ops == [] {
    } else {
      RecordedAfter(ops[..|ops| - 1], t, a);
    }
  }

  /** The date of the latest success recorded for an account. */
  function LastDate(ops: seq<Op>, a: string): Option<string> {
    var at := LastOkAt(ops, a);
    if at.Some? then Some(ops[at.value].date) else None
  }

  /** The same saves of every key in the same order, the same marks, and for each account the same last date and the
      same last kind of record write. */
  ghost predicate SameSummary(x: seq<Op>, y: seq<Op>) {
    && (forall k :: Writing(x, k) == Writing(y, k))
    && (forall op :: op in x <==> op in y)
    && (forall a :: LastDate(x, a) == LastDate(y, a))
    && forall a :: HasWrite(x, a) == HasWrite(y, a) && LastIsRetry(x, a) == LastIsRetry(y, a)
  }

  lemma HasOkIff(ops: seq<Op>, a: string)
    ensures LastDate(ops, a).Some? <==> exists op :: op in ops && op.SetOk? && op.account == a
  {
    var at := LastOkAt(ops, a);
    if at.Some? {
      assert ops[at.value] in ops;
    }
  }

  lemma PendingAfter(ops: seq<Op>, t: Tables, a: string)
    ensures RetryPending(RunOps(ops, t), a) == if HasWrite(ops, a) then LastIsRetry(ops, a) else RetryPending(t, a)
  {
    RecordAfter(ops, t, a);
  }

  lemma SameRecord(x: seq<Op>, y: seq<Op>, t: Tables, a: string)
    requires SameSummary(x, y)
    ensures var p, q := RunOps(x, t).state, RunOps(y, t).state;
      (a in p <==> a in q) && (a in p ==> p[a] == q[a])
  {
    RecordedAfter(x, t, a);
    RecordedAfter(y, t, a);
    PendingAfter(x, t, a);
    PendingAfter(y, t, a);
    RecordAfter(x, t, a);
    RecordAfter(y, t, a);
    assert LastDate(x, a) == LastDate(y, a);
  }

  lemma SameTables(x: seq<Op>, y: seq<Op>, t: Tables)
    requires SameSummary(x, y)
    ensures RunOps(x, t) == RunOps(y, t)
  {
    var p, q := RunOps(x, t), RunOps(y, t);
    forall k ensures SameAt(p.spend, q.spend, k) {
      KeyFromWriters(x, t, k);
      KeyFromWriters(y, t, k);
      assert Writing(x, k) == Writing(y, k);
    }
    SameMaps(p.spend, q.spend);
    forall a ensures (a in p.state <==> a in q.state) && (a in p.state ==> p.state[a] == q.state[a]) {
      SameRecord(x, y, t, a);
    }
    forall a ensures a in p.synced <==> a in q.synced {
      SyncedAfter(x, t, a);
      SyncedAfter(y, t, a);
    }
    assert p.state == q.state && p.synced == q.synced;
  }

  lemma {:induction false} LastWriteSplit(x: seq<Op>, y: seq<Op>, a: string)
    ensures HasWrite(x + y, a) == (HasWrite(x, a) || HasWrite(y, a))
    ensures LastIsRetry(x + y, a) == if HasWrite(y, a) then LastIsRetry(y, a) else LastIsRetry(x, a)
  {
    if y == [] {
      assert x + y == x;
    } else {
      assert (x + y)[..|x + y| - 1] == x + y[..|y| - 1];
      LastWriteSplit(x, y[..|y| - 1], a);
    }
  }

  // ----- The equivalent order -----

  function SaverIn(jobs: seq<Job>): Event -> Option<nat> {
    (e: Event) => if e.job < |jobs| && e.action == 0 && !Fails(jobs[e.job]) then Some(e.job) else None
  }

  /** The succeeding jobs, in the order in which they saved their rows. */
  function Savers(jobs: seq<Job>, h: seq<Event>): (order: seq<nat>)
    ensures Indexes(order, |jobs|) && forall i :: 0 <= i < |order| ==> !Fails(jobs[order[i]])
  {
    CollectHolds(h, SaverIn(jobs), (j: nat) => j < |jobs| && !Fails(jobs[j]));
    Collect(h, SaverIn(jobs))
  }

  lemma FilterIndexes(order: seq<nat>, pick: nat -> bool, n: nat)
    requires Indexes(order, n)
    ensures Indexes(Filter<nat>(order, pick), n)
  {
    var kept := Filter<nat>(order, pick);
    FilterAre<nat>(order, pick);
    forall i | 0 <= i < |kept| ensures kept[i] < n {
      assert kept[i] in order;
    }
  }

  /** The failing jobs whose account's record ended on a retry (or, with `late` false, did not). */
  ghost function FailsBeside(jobs: seq<Job>, ops: seq<Op>, late: bool): nat -> bool {
    (j: nat) => j < |jobs| && Fails(jobs[j]) && LastIsRetry(ops, jobs[j].account.accountId) == late
  }

  ghost function Failing(jobs: seq<Job>, ops: seq<Op>, late: bool): (order: seq<nat>)
    ensures Indexes(order, |jobs|)
    ensures forall i :: 0 <= i < |order| ==>
      Fails(jobs[order[i]]) && LastIsRetry(ops, jobs[order[i]].account.accountId) == late
  {
    var order := Filter(Range(|jobs|), FailsBeside(jobs, ops, late));
    FilterAre(Range(|jobs|), FailsBeside(jobs, ops, late));
    assert forall i :: 0 <= i < |order| ==> order[i] in order && FailsBeside(jobs, ops, late)(order[i]);
    order
  }

  lemma SaversCounted(jobs: seq<Job>, h: seq<Event>, j: nat)
    requires j < |jobs|
    ensures multiset(Savers(jobs, h))[j] == if Fails(jobs[j]) then 0 else multiset(h)[Event(j, 0)]
  {
    if Fails(jobs[j]) {
      assert j !in Savers(jobs, h);
    } else {
      CollectCounted(h, SaverIn(jobs), Event(j, 0), j);
    }
  }

  /** The jobs whose date is (or, with `latest` false, is not) the one their account's record ends on. */
  function OfLastDate(jobs: seq<Job>, ops: seq<Op>, latest: bool): nat -> bool {
    (j: nat) => (j < |jobs| && LastDate(ops, jobs[j].account.accountId) == Some(jobs[j].date)) == latest
  }

  /** The succeeding jobs of either kind, in the order of their saves. */
  function SaversOf(jobs: seq<Job>, h: seq<Event>, latest: bool): (order: seq<nat>)
    requires InRange(Programs(jobs), h)
    ensures Indexes(order, |jobs|)
  {
    FilterIndexes(Savers(jobs, h), OfLastDate(jobs, Ops(Programs(jobs), h), latest), |jobs|);
    Filter(Savers(jobs, h), OfLastDate(jobs, Ops(Programs(jobs), h), latest))
  }

  lemma SaversOfAre(jobs: seq<Job>, h: seq<Event>, latest: bool, j: nat)
    requires InRange(Programs(jobs), h)
    ensures j in SaversOf(jobs, h, latest) <==>
      j in Savers(jobs, h) && (LastDate(Ops(Programs(jobs), h), jobs[j].account.accountId) == Some(jobs[j].date))
        == latest
  {
    FilterIs(Savers(jobs, h), OfLastDate(jobs, Ops(Programs(jobs), h), latest), j);
  }

  /** The succeeding jobs, those of their account's last date after the others. */
  function Saved(jobs: seq<Job>, h: seq<Event>): (order: seq<nat>)
    requires InRange(Programs(jobs), h)
    ensures Indexes(order, |jobs|)
  {
    SaversOf(jobs, h, false) + SaversOf(jobs, h, true)
  }

  lemma SavedAre(jobs: seq<Job>, h: seq<Event>, j: nat)
    requires InRange(Programs(jobs), h)
    ensures j in Saved(jobs, h) <==> j in Savers(jobs, h)
  {
    SaversOfAre(jobs, h, false, j);
    SaversOfAre(jobs, h, true, j);
  }

  lemma SavedSucceed(jobs: seq<Job>, h: seq<Event>)
    requires InRange(Programs(jobs), h)
    ensures forall i :: 0 <= i < |Saved(jobs, h)| ==> !Fails(jobs[Saved(jobs, h)[i]])
  {
    var order := Saved(jobs, h);
    forall i | 0 <= i < |order| ensures !Fails(jobs[order[i]]) {
      assert order[i] in order;
      SavedAre(jobs, h, order[i]);
    }
  }

  lemma SavedCounted(jobs: seq<Job>, h: seq<Event>, j: nat)
    requires InRange(Programs(jobs), h)
    ensures multiset(Saved(jobs, h))[j] == multiset(Savers(jobs, h))[j]
  {
    FilterCounted(Savers(jobs, h), OfLastDate(jobs, Ops(Programs(jobs), h), false), j);
    FilterCounted(Savers(jobs, h), OfLastDate(jobs, Ops(Programs(jobs), h), true), j);
  }

  ghost function SerialOrder(jobs: seq<Job>, h: seq<Event>): (order: seq<nat>)
    requires InRange(Programs(jobs), h)
    ensures Indexes(order, |jobs|)
  {
    var ops := Ops(Programs(jobs), h);
    Failing(jobs, ops, false) + Saved(jobs, h) + Failing(jobs, ops, true)
  }

  lemma ProgramNonEmpty(j: Job)
    ensures Program(j) != []
  {
  }

  lemma {:induction false} FirstActionOnce(j: nat, k: nat)
    ensures multiset(Actions(j, k))[Event(j, 0)] == if k > 0 then 1 else 0
  {
    if k == 0 {
    } else {
      FirstActionOnce(j, k - 1);
      assert Actions(j, k) == Actions(j, k - 1) + [Event(j, k - 1)];
    }
  }

  lemma {:induction false} RangeCounted(n: nat, j: nat)
    ensures multiset(Range(n))[j] == if j < n then 1 else 0
  {
    if n == 0 {
    } else {
      RangeCounted(n - 1, j);
      assert Range(n) == Range(n - 1) + [n - 1];
    }
  }

  lemma SerialCounted(jobs: seq<Job>, h: seq<Event>, j: nat)
    requires Complete(Programs(jobs), h) && InRange(Programs(jobs), h) && j < |jobs|
    ensures multiset(SerialOrder(jobs, h))[j] == 1
  {
    var ops := Ops(Programs(jobs), h);
    RangeCounted(|jobs|, j);
    FilterCounted(Range(|jobs|), FailsBeside(jobs, ops, false), j);
    FilterCounted(Range(|jobs|), FailsBeside(jobs, ops, true), j);
    SaversCounted(jobs, h, j);
    FilterCounted(h, IsOfJob(j), Event(j, 0));
    SavedCounted(jobs, h, j);
    assert OfJob(h, j) == Actions(j, |Programs(jobs)[j]|);
    FirstActionOnce(j, |Programs(jobs)[j]|);
    ProgramNonEmpty(jobs[j]);
  }

  lemma SerialOrderIsPermutation(jobs: seq<Job>, h: seq<Event>)
    requires Complete(Programs(jobs), h) && InRange(Programs(jobs), h)
    ensures multiset(SerialOrder(jobs, h)) == multiset(Range(|jobs|))
  {
    forall j: nat ensures multiset(SerialOrder(jobs, h))[j] == multiset(Range(|jobs|))[j] {
      RangeCounted(|jobs|, j);
      if j < |jobs| {
        SerialCounted(jobs, h, j);
      } else {
        assert j !in SerialOrder(jobs, h);
      }
    }
  }

  lemma {:induction false} InSequential(programs: seq<seq<Op>>, order: seq<nat>, op: Op)
    requires Indexes(order, |programs|)
    ensures op in SequentialOps(programs, order) <==> exists j :: j in order && op in programs[j]
  {
    if order == [] {
    } else {
      InSequential(programs, order[..|order| - 1], op);
      assert order == order[..|order| - 1] + [order[|order| - 1]];
    }
  }

  lemma SameOps(jobs: seq<Job>, h: seq<Event>, order: seq<nat>, op: Op)
    requires Complete(Programs(jobs), h) && InRange(Programs(jobs), h)
    requires Indexes(order, |jobs|) && multiset(order) == multiset(Range(|jobs|))
    ensures op in Ops(Programs(jobs), h) <==> op in SequentialOps(Programs(jobs), order)
  {
    SameActions(Programs(jobs), h);
    InSequential(Programs(jobs), order, op);
    InSequential(Programs(jobs), Range(|jobs|), op);
    assert op in Ops(Programs(jobs), h) <==> op in multiset(Ops(Programs(jobs), h));
    assert forall j :: j in order <==> j in multiset(order);
  }

  // ----- Saves -----

  function SaveOf(jobs: seq<Job>): nat -> Option<Op> {
    (j: nat) => if j < |jobs| && !Fails(jobs[j]) then Some(Program(jobs[j])[0]) else None
  }

  function SaveOps(jobs: seq<Job>, order: seq<nat>): seq<Op> {
    Collect(order, SaveOf(jobs))
  }

  lemma ProgramSaves(j: Job)
    ensures Saves(Program(j)) == if Fails(j) then [] else [Program(j)[0]]
    ensures forall i :: 0 <= i < |Program(j)| ==> (Program(j)[i].SaveRows? <==> i == 0 && !Fails(j))
  {
    var p := Program(j);
    FilterFirst(p, IsSave());
    FilterNone(p[1..], IsSave());
  }

  lemma {:induction false} SequentialSaves(jobs: seq<Job>, order: seq<nat>)
    requires Indexes(order, |jobs|)
    ensures Saves(SequentialOps(Programs(jobs), order)) == SaveOps(jobs, order)
  {
    if order == [] {
    } else {
      var last := |order| - 1;
      SequentialSaves(jobs, order[..last]);
      FilterSplit(SequentialOps(Programs(jobs), order[..last]), Programs(jobs)[order[last]], IsSave());
      ProgramSaves(jobs[order[last]]);
    }
  }

  lemma OneSave(jobs: seq<Job>, e: Event)
    requires e.job < |jobs| && e.action < |Program(jobs[e.job])|
    ensures Saves([Program(jobs[e.job])[e.action]])
         == SaveOps(jobs, if e.action == 0 && !Fails(jobs[e.job]) then [e.job] else [])
  {
    var op := Program(jobs[e.job])[e.action];
    ProgramSaves(jobs[e.job]);
    assert [op][..0] == [] && [e.job][..0] == [];
    assert Saves([]) == [] && SaveOps(jobs, []) == [];
  }

  lemma OpsStep(programs: seq<seq<Op>>, h: seq<Event>)
    requires InRange(programs, h) && h != []
    ensures var e := h[|h| - 1]; Ops(programs, h) == Ops(programs, h[..|h| - 1]) + [programs[e.job][e.action]]
  {
  }

  lemma {:induction false} HistorySaves(jobs: seq<Job>, h: seq<Event>)
    requires InRange(Programs(jobs), h)
    ensures Saves(Ops(Programs(jobs), h)) == SaveOps(jobs, Savers(jobs, h))
  {
    if h == [] {
    } else {
      var last := |h| - 1;
      var e := h[last];
      var op := Programs(jobs)[e.job][e.action];
      var before, saved := Savers(jobs, h[..last]), if e.action == 0 && !Fails(jobs[e.job]) then [e.job] else [];
      calc {
        Saves(Ops(Programs(jobs), h));
        { OpsStep(Programs(jobs), h); }
        Saves(Ops(Programs(jobs), h[..last]) + [op]);
        { FilterSplit(Ops(Programs(jobs), h[..last]), [op], IsSave()); }
        Saves(Ops(Programs(jobs), h[..last])) + Saves([op]);
        { HistorySaves(jobs, h[..last]); OneSave(jobs, e); }
        SaveOps(jobs, before) + SaveOps(jobs, saved);
        { CollectSplit(before, saved, SaveOf(jobs)); }
        SaveOps(jobs, before + saved);
      }
    }
  }

  /** The job writes this key. */
  predicate SavesKey(j: Job, k: Key) {
    !Fails(j) && Mentions(Program(j)[0], k)
  }

  /** No two jobs of different dates write one key. */
  ghost predicate DatesApart(jobs: seq<Job>) {
    forall i, j, k :: 0 <= i < |jobs| && 0 <= j < |jobs| && SavesKey(jobs[i], k) && SavesKey(jobs[j], k) ==>
      jobs[i].date == jobs[j].date
  }

  function KeySave(j: Job, k: Key): seq<Op> {
    if SavesKey(j, k) then [Program(j)[0]] else []
  }

  lemma LastSave(jobs: seq<Job>, order: seq<nat>, k: Key)
    requires Indexes(order, |jobs|) && order != []
    ensures var init, last := order[..|order| - 1], order[|order| - 1];
      Writing(SaveOps(jobs, order), k) == Writing(SaveOps(jobs, init), k) + KeySave(jobs[last], k)
  {
    var init, last := order[..|order| - 1], order[|order| - 1];
    var before, op := SaveOps(jobs, init), Program(jobs[last])[0];
    if Fails(jobs[last]) {
      assert SaveOps(jobs, order) == before;
    } else {
      assert (before + [op])[..|before|] == before;
    }
  }

  /** When the jobs that write a key are all picked, or none is, picking keeps all its saves or none. */
  lemma {:induction false} PickedWriters(jobs: seq<Job>, order: seq<nat>, pick: nat -> bool, all: bool, k: Key)
    requires Indexes(order, |jobs|) && Indexes(Filter(order, pick), |jobs|)
    requires forall j :: 0 <= j < |jobs| && SavesKey(jobs[j], k) ==> pick(j) == all
    ensures Writing(SaveOps(jobs, Filter(order, pick)), k) == if all then Writing(SaveOps(jobs, order), k) else []
  {
    if order == [] {
    } else {
      var init, last := order[..|order| - 1], order[|order| - 1];
      FilterIndexes(init, pick, |jobs|);
      PickedWriters(jobs, init, pick, all, k);
      LastSave(jobs, order, k);
      if pick(last) {
        LastSave(jobs, Filter(order, pick), k);
        assert Filter(order, pick)[..|Filter(order, pick)| - 1] == Filter(init, pick);
      } else {
        assert Filter(order, pick) == Filter(init, pick);
      }
    }
  }

  /** A job's rows are under its own account, so the writers of a key share their account's last date. */
  lemma WritersTogether(jobs: seq<Job>, ops: seq<Op>, i: nat, j: nat, k: Key)
    requires DatesApart(jobs) && i < |jobs| && j < |jobs| && SavesKey(jobs[i], k) && SavesKey(jobs[j], k)
    ensures OfLastDate(jobs, ops, true)(i) == OfLastDate(jobs, ops, true)(j)
  {
    ProgramOwnsItsKeys(jobs[i], 0);
    ProgramOwnsItsKeys(jobs[j], 0);
  }

  /** Moving the savers of last dates behind the others leaves every key's saves in order. */
  lemma SavedWriters(jobs: seq<Job>, h: seq<Event>, k: Key)
    requires InRange(Programs(jobs), h) && DatesApart(jobs)
    ensures Writing(SaveOps(jobs, Saved(jobs, h)), k) == Writing(SaveOps(jobs, Savers(jobs, h)), k)
  {
    var latest := KeyIsLatest(jobs, h, k);
    KindWriters(jobs, Savers(jobs, h), Ops(Programs(jobs), h), k, latest, false);
    KindWriters(jobs, Savers(jobs, h), Ops(Programs(jobs), h), k, latest, true);
    CollectSplit(SaversOf(jobs, h, false), SaversOf(jobs, h, true), SaveOf(jobs));
    FilterSplit(SaveOps(jobs, SaversOf(jobs, h, false)), SaveOps(jobs, SaversOf(jobs, h, true)), SavesAt(k));
  }

  /** Whether the jobs that write a key are of their account's last date. */
  lemma KeyIsLatest(jobs: seq<Job>, h: seq<Event>, k: Key) returns (latest: bool)
    requires InRange(Programs(jobs), h) && DatesApart(jobs)
    ensures forall j :: 0 <= j < |jobs| && SavesKey(jobs[j], k) ==>
      OfLastDate(jobs, Ops(Programs(jobs), h), true)(j) == latest
  {
    var ops := Ops(Programs(jobs), h);
    if i :| 0 <= i < |jobs| && SavesKey(jobs[i], k) {
      latest := OfLastDate(jobs, ops, true)(i);
      forall j | 0 <= j < |jobs| && SavesKey(jobs[j], k) ensures OfLastDate(jobs, ops, true)(j) == latest {
        WritersTogether(jobs, ops, i, j, k);
      }
    } else {
      latest := true;
    }
  }

  lemma OfKind(jobs: seq<Job>, ops: seq<Op>, k: Key, latest: bool, kind: bool)
    requires forall j :: 0 <= j < |jobs| && SavesKey(jobs[j], k) ==> OfLastDate(jobs, ops, true)(j) == latest
    ensures forall j :: 0 <= j < |jobs| && SavesKey(jobs[j], k) ==> OfLastDate(jobs, ops, kind)(j) == (kind == latest)
  {
    forall j | 0 <= j < |jobs| && SavesKey(jobs[j], k) ensures OfLastDate(jobs, ops, kind)(j) == (kind == latest) {
      assert OfLastDate(jobs, ops, true)(j) == latest;
    }
  }

  lemma KindWriters(jobs: seq<Job>, savers: seq<nat>, ops: seq<Op>, k: Key, latest: bool, kind: bool)
    requires Indexes(savers, |jobs|)
    requires forall j :: 0 <= j < |jobs| && SavesKey(jobs[j], k) ==> OfLastDate(jobs, ops, true)(j) == latest
    ensures var order := Filter<nat>(savers, OfLastDate(jobs, ops, kind));
      Indexes(order, |jobs|)
      && Writing(SaveOps(jobs, order), k) == if kind == latest then Writing(SaveOps(jobs, savers), k) else []
  {
    FilterIndexes(savers, OfLastDate(jobs, ops, kind), |jobs|);
    OfKind(jobs, ops, k, latest, kind);
    PickedWriters(jobs, savers, OfLastDate(jobs, ops, kind), kind == latest, k);
  }

  lemma SerialSaves(jobs: seq<Job>, h: seq<Event>)
    requires InRange(Programs(jobs), h)
    ensures Saves(SequentialOps(Programs(jobs), SerialOrder(jobs, h))) == SaveOps(jobs, Saved(jobs, h))
  {
    var ops := Ops(Programs(jobs), h);
    var early, late := Failing(jobs, ops, false), Failing(jobs, ops, true);
    SequentialSaves(jobs, SerialOrder(jobs, h));
    CollectSplit(early + Saved(jobs, h), late, SaveOf(jobs));
    CollectSplit(early, Saved(jobs, h), SaveOf(jobs));
    CollectNone(early, SaveOf(jobs));
    CollectNone(late, SaveOf(jobs));
  }

  lemma SerialWriters(jobs: seq<Job>, h: seq<Event>, k: Key)
    requires InRange(Programs(jobs), h) && DatesApart(jobs)
    ensures Writing(SequentialOps(Programs(jobs), SerialOrder(jobs, h)), k) == Writing(Ops(Programs(jobs), h), k)
  {
    WritersAreSaves(Ops(Programs(jobs), h), k);
    WritersAreSaves(SequentialOps(Programs(jobs), SerialOrder(jobs, h)), k);
    SerialSaves(jobs, h);
    HistorySaves(jobs, h);
    SavedWriters(jobs, h, k);
  }

  // ----- Record writes -----

  lemma ProgramWrites(j: Job, i: nat)
    requires i < |Program(j)|
    ensures Program(j)[i].account == j.account.accountId
    ensures Program(j)[i].SetOk? ==> !Fails(j) && Program(j)[i].date == j.date
    ensures Program(j)[i].SetRetry? ==> Fails(j)
  {
  }

  lemma SequentialWrites(jobs: seq<Job>, order: seq<nat>, op: Op) returns (j: nat)
    requires Indexes(order, |jobs|) && op in SequentialOps(Programs(jobs), order)
    ensures j in order && j < |jobs| && op in Program(jobs[j]) && op.account == jobs[j].account.accountId
    ensures op.SetOk? ==> !Fails(jobs[j]) && op.date == jobs[j].date
    ensures op.SetRetry? ==> Fails(jobs[j])
  {
    InSequential(Programs(jobs), order, op);
    j :| j in order && op in Programs(jobs)[j];
    var i :| 0 <= i < |Program(jobs[j])| && Program(jobs[j])[i] == op;
    ProgramWrites(jobs[j], i);
  }

  lemma HasWriteIff(ops: seq<Op>, a: string)
    ensures HasWrite(ops, a) <==> exists op :: op in ops && IsStateWrite(op, a)
  {
    var at := LastWriteAt(ops, a);
    if at.Some? {
      assert ops[at.value] in ops && IsStateWrite(ops[at.value], a);
    }
  }

  /** Jobs that all fail leave no good date, jobs that all succeed no retry. */
  lemma UniformWrites(jobs: seq<Job>, order: seq<nat>, failing: bool, a: string)
    requires Indexes(order, |jobs|) && forall i :: 0 <= i < |order| ==> Fails(jobs[order[i]]) == failing
    ensures var ops := SequentialOps(Programs(jobs), order); HasWrite(ops, a) ==> LastIsRetry(ops, a) == failing
  {
    var ops := SequentialOps(Programs(jobs), order);
    if HasWrite(ops, a) {
      var j := SequentialWrites(jobs, order, ops[LastWriteAt(ops, a).value]);
    }
  }

  /** The order ends each account's record on the same kind of write as the history did. */
  lemma SerialWrites(jobs: seq<Job>, h: seq<Event>, a: string)
    requires Complete(Programs(jobs), h) && InRange(Programs(jobs), h)
    ensures var ops, serial := Ops(Programs(jobs), h), SequentialOps(Programs(jobs), SerialOrder(jobs, h));
      HasWrite(serial, a) == HasWrite(ops, a) && LastIsRetry(serial, a) == LastIsRetry(ops, a)
  {
    var programs := Programs(jobs);
    var ops := Ops(programs, h);
    var early, savers, late := Failing(jobs, ops, false), Saved(jobs, h), Failing(jobs, ops, true);
    var order := SerialOrder(jobs, h);
    var serial := SequentialOps(programs, order);
    var x, y, z := SequentialOps(programs, early), SequentialOps(programs, savers), SequentialOps(programs, late);
    SequentialSplit(programs, early + savers, late);
    SequentialSplit(programs, early, savers);
    LastWriteSplit(x + y, z, a);
    LastWriteSplit(x, y, a);
    SerialOrderIsPermutation(jobs, h);
    HasWriteIff(ops, a);
    HasWriteIff(serial, a);
    forall op ensures op in ops <==> op in serial {
      SameOps(jobs, h, order, op);
    }
    SavedSucceed(jobs, h);
    UniformWrites(jobs, savers, false, a);
    UniformWrites(jobs, late, true, a);
    if HasWrite(ops, a) {
      var w := ops[LastWriteAt(ops, a).value];
      assert w in ops;
      var j := SequentialWrites(jobs, order, w);
      WriterIsPlaced(jobs, h, j);
      if w.SetRetry? {
        InSequential(programs, late, w);
        HasWriteIff(z, a);
      } else {
        InSequential(programs, savers, w);
        HasWriteIff(y, a);
        NoLateWrites(jobs, ops, a);
      }
    }
  }

  lemma FailingAre(jobs: seq<Job>, ops: seq<Op>, late: bool, j: nat)
    ensures j in Failing(jobs, ops, late) ==>
      j < |jobs| && Fails(jobs[j]) && LastIsRetry(ops, jobs[j].account.accountId) == late
  {
  }

  /** A failing job comes late and a succeeding one among the savers when its account's record ended on its kind. */
  lemma WriterIsPlaced(jobs: seq<Job>, h: seq<Event>, j: nat)
    requires InRange(Programs(jobs), h) && j < |jobs|
    ensures var ops := Ops(Programs(jobs), h);
      j in SerialOrder(jobs, h) && LastIsRetry(ops, jobs[j].account.accountId) == Fails(jobs[j]) ==>
        if Fails(jobs[j]) then j in Failing(jobs, ops, true) else j in Saved(jobs, h)
  {
    var ops := Ops(Programs(jobs), h);
    SavedAre(jobs, h, j);
    FailingAre(jobs, ops, false, j);
    FailingAre(jobs, ops, true, j);
    assert j in SerialOrder(jobs, h) ==>
      j in Failing(jobs, ops, false) || j in Saved(jobs, h) || j in Failing(jobs, ops, true);
  }

  lemma NoLateWrites(jobs: seq<Job>, ops: seq<Op>, a: string)
    requires !LastIsRetry(ops, a)
    ensures !HasWrite(SequentialOps(Programs(jobs), Failing(jobs, ops, true)), a)
  {
    var late := Failing(jobs, ops, true);
    var z := SequentialOps(Programs(jobs), late);
    if HasWrite(z, a) {
      var j := SequentialWrites(jobs, late, z[LastWriteAt(z, a).value]);
      assert false;
    }
  }

  lemma {:induction false} LastDateSplit(x: seq<Op>, y: seq<Op>, a: string)
    ensures LastDate(x + y, a) == if LastDate(y, a).Some? then LastDate(y, a) else LastDate(x, a)
  {
    if y == [] {
      assert x + y == x;
    } else {
      assert (x + y)[..|x + y| - 1] == x + y[..|y| - 1];
      LastDateSplit(x, y[..|y| - 1], a);
    }
  }

  lemma FailingHaveNoDate(jobs: seq<Job>, order: seq<nat>, a: string)
    requires Indexes(order, |jobs|) && forall i :: 0 <= i < |order| ==> Fails(jobs[order[i]])
    ensures LastDate(SequentialOps(Programs(jobs), order), a) == None
  {
    var ops := SequentialOps(Programs(jobs), order);
    HasOkIff(ops, a);
    if op :| op in ops && op.SetOk? && op.account == a {
      var j := SequentialWrites(jobs, order, op);
      assert false;
    }
  }

  /** The savers put last record no date but their account's last. */
  lemma SavedOnlyLast(jobs: seq<Job>, h: seq<Event>, a: string)
    requires InRange(Programs(jobs), h)
    ensures var date := LastDate(SequentialOps(Programs(jobs), SaversOf(jobs, h, true)), a);
      date.Some? ==> date == LastDate(Ops(Programs(jobs), h), a)
  {
    var savers := SaversOf(jobs, h, true);
    var serial := SequentialOps(Programs(jobs), savers);
    if LastDate(serial, a).Some? {
      var op := serial[LastOkAt(serial, a).value];
      var j := SequentialWrites(jobs, savers, op);
      SaversOfAre(jobs, h, true, j);
    }
  }

  /** And they do record it. */
  lemma SavedHaveLast(jobs: seq<Job>, h: seq<Event>, a: string)
    requires Complete(Programs(jobs), h) && InRange(Programs(jobs), h) && LastDate(Ops(Programs(jobs), h), a).Some?
    ensures LastDate(SequentialOps(Programs(jobs), SaversOf(jobs, h, true)), a).Some?
  {
    var ops, savers := Ops(Programs(jobs), h), SaversOf(jobs, h, true);
    var op := ops[LastOkAt(ops, a).value];
    assert op in ops;
    SerialOrderIsPermutation(jobs, h);
    SameOps(jobs, h, SerialOrder(jobs, h), op);
    var j := SequentialWrites(jobs, SerialOrder(jobs, h), op);
    SavedAre(jobs, h, j);
    SaversOfAre(jobs, h, true, j);
    InSequential(Programs(jobs), savers, op);
    HasOkIff(SequentialOps(Programs(jobs), savers), a);
  }

  lemma SavedDate(jobs: seq<Job>, h: seq<Event>, a: string)
    requires Complete(Programs(jobs), h) && InRange(Programs(jobs), h)
    ensures LastDate(SequentialOps(Programs(jobs), Saved(jobs, h)), a) == LastDate(Ops(Programs(jobs), h), a)
  {
    var x, y := SaversOf(jobs, h, false), SaversOf(jobs, h, true);
    SequentialSplit(Programs(jobs), x, y);
    LastDateSplit(SequentialOps(Programs(jobs), x), SequentialOps(Programs(jobs), y), a);
    SavedOnlyLast(jobs, h, a);
    if LastDate(Ops(Programs(jobs), h), a).Some? {
      SavedHaveLast(jobs, h, a);
    } else {
      NoDateAnywhere(jobs, h, x, a);
    }
  }

  lemma SerialDates(jobs: seq<Job>, h: seq<Event>, a: string)
    requires Complete(Programs(jobs), h) && InRange(Programs(jobs), h)
    ensures LastDate(SequentialOps(Programs(jobs), SerialOrder(jobs, h)), a) == LastDate(Ops(Programs(jobs), h), a)
  {
    var programs := Programs(jobs);
    var ops := Ops(programs, h);
    var early, saved, late := Failing(jobs, ops, false), Saved(jobs, h), Failing(jobs, ops, true);
    var e, s, l := SequentialOps(programs, early), SequentialOps(programs, saved), SequentialOps(programs, late);
    SequentialSplit(programs, early + saved, late);
    SequentialSplit(programs, early, saved);
    LastDateSplit(e + s, l, a);
    LastDateSplit(e, s, a);
    FailingHaveNoDate(jobs, early, a);
    FailingHaveNoDate(jobs, late, a);
    SavedDate(jobs, h, a);
  }

  /** No order of the jobs records a date that the history did not. */
  lemma NoDateAnywhere(jobs: seq<Job>, h: seq<Event>, order: seq<nat>, a: string)
    requires Complete(Programs(jobs), h) && InRange(Programs(jobs), h) && Indexes(order, |jobs|)
    requires LastDate(Ops(Programs(jobs), h), a).None?
    ensures LastDate(SequentialOps(Programs(jobs), order), a).None?
  {
    var ops, serial := Ops(Programs(jobs), h), SequentialOps(Programs(jobs), order);
    HasOkIff(ops, a);
    HasOkIff(serial, a);
    if op :| op in serial && op.SetOk? && op.account == a {
      InSequential(Programs(jobs), order, op);
      var j :| j in order && op in Programs(jobs)[j];
      assert j in Range(|jobs|) by {
        assert Range(|jobs|)[j] == j;
      }
      InSequential(Programs(jobs), Range(|jobs|), op);
      SameOps(jobs, h, Range(|jobs|), op);
      assert false;
    }
  }

  /** Even when accounts are shared, and syncs of several dates overlap, every interleaving of the jobs leaves exactly
      what the jobs leave when they run one by one in some order, each once, as long as no two dates' jobs write one
      key. */
  lemma {:induction false} Serializable(jobs: seq<Job>, h: seq<Event>, t: Tables) returns (order: seq<nat>)
    requires Complete(Programs(jobs), h) && DatesApart(jobs)
    ensures multiset(order) == multiset(Range(|jobs|)) && Indexes(order, |jobs|) && InRange(Programs(jobs), h)
    ensures RunOps(Ops(Programs(jobs), h), t) == RunOps(SequentialOps(Programs(jobs), order), t)
  {
    CompleteInOrder(Programs(jobs), h);
    order := SerialOrder(jobs, h);
    var ops, serial := Ops(Programs(jobs), h), SequentialOps(Programs(jobs), order);
    SerialOrderIsPermutation(jobs, h);
    forall k ensures Writing(ops, k) == Writing(serial, k) {
      SerialWriters(jobs, h, k);
    }
    forall op ensures op in ops <==> op in serial {
      SameOps(jobs, h, order, op);
    }
    forall a ensures LastDate(ops, a) == LastDate(serial, a) {
      SerialDates(jobs, h, a);
    }
    forall a ensures HasWrite(ops, a) == HasWrite(serial, a) && LastIsRetry(ops, a) == LastIsRetry(serial, a) {
      SerialWrites(jobs, h, a);
    }
    SameTables(ops, serial, t);
  }

  /** The jobs of one sync are of one date. */
  lemma OneDateIsApart(jobs: seq<Job>, date: string)
    requires forall j :: 0 <= j < |jobs| ==> jobs[j].date == date
    ensures DatesApart(jobs)
  {
  }

  /** Every row fetched is of the day its job asked for. */
  predicate OwnDates(jobs: seq<Job>) {
    forall j :: 0 <= j < |jobs| && jobs[j].answer.fetch.Ok? ==>
      forall r <- jobs[j].answer.fetch.value :: r.date == jobs[j].date
  }

  /** Nor do overlapping syncs of different dates meet in a key, when the API answers for the day it is asked. */
  lemma OwnDatesAreApart(jobs: seq<Job>)
    requires OwnDates(jobs)
    ensures DatesApart(jobs)
  {
    forall i, j, k | 0 <= i < |jobs| && 0 <= j < |jobs| && SavesKey(jobs[i], k) && SavesKey(jobs[j], k)
      ensures jobs[i].date == jobs[j].date
    {
      OwnKeyDate(jobs, i, k);
      OwnKeyDate(jobs, j, k);
    }
  }

  lemma OwnKeyDate(jobs: seq<Job>, j: nat, k: Key)
    requires OwnDates(jobs) && j < |jobs| && SavesKey(jobs[j], k)
    ensures k.date == jobs[j].date
  {
    var rows := Program(jobs[j])[0].rows;
    var i :| 0 <= i < |rows| && rows[i].key == k;
    assert jobs[j].answer.fetch.value[i] in jobs[j].answer.fetch.value;
  }
}
