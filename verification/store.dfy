/**
The spend and progress tables. `Tables` is their meaning: spend rows keyed by (account, date, adset)
and the sync_state record of each account, with row ids and timestamps left aside. `SqlStore` is the
store itself, whose spend_raw table is a sequence of rows with ids, changed inside transactions.
*/
module Store {
  import opened Wrappers

  datatype Key = Key(account: string, date: string, adset: string)

  datatype Spend = Spend(
    campaignId: string, campaignName: string, adsetName: string,
    impressions: int, clicks: int, spend: real, currency: string)

  datatype SpendRow = SpendRow(key: Key, data: Spend)

  datatype SyncState = SyncState(lastOk: string, retryPending: bool)

  datatype Tables = Tables(spend: map<Key, Spend>, state: map<string, SyncState>, synced: set<string>)

  // ----- What a batch of upserts means -----

  function PutAll(m: map<Key, Spend>, rows: seq<SpendRow>): map<Key, Spend>
    decreases rows
  {
    if rows == [] then m else PutAll(m[rows[0].key := rows[0].data], rows[1..])
  }

  /** A batch acts as one overriding map: it does not depend on what was there before. */
  lemma {:induction false} BatchOverrides(m: map<Key, Spend>, rows: seq<SpendRow>)
    ensures PutAll(m, rows) == m + PutAll(map[], rows)
    decreases rows
  {
    if rows == [] {
    } else {
      var first := map[rows[0].key := rows[0].data];
      BatchOverrides(m[rows[0].key := rows[0].data], rows[1..]);
      BatchOverrides(first, rows[1..]);
      assert m[rows[0].key := rows[0].data] == m + first;
      assert map[][rows[0].key := rows[0].data] == first;
    }
  }

  /** The last row of a key wins, and keys the batch does not mention keep what they had. */
  lemma {:induction false} LastRowWins(m: map<Key, Spend>, rows: seq<SpendRow>, k: Key)
    ensures k in PutAll(m, rows) <==> k in m || exists i :: 0 <= i < |rows| && rows[i].key == k
    ensures (forall i :: 0 <= i < |rows| ==> rows[i].key != k) && k in m ==> PutAll(m, rows)[k] == m[k]
    ensures forall i :: 0 <= i < |rows| && rows[i].key == k && (forall j :: i < j < |rows| ==> rows[j].key != k)
              ==> PutAll(m, rows)[k] == rows[i].data
    decreases rows
  {
    if rows == [] {
    } else {
      LastRowWins(m[rows[0].key := rows[0].data], rows[1..], k);
      assert forall j :: 0 < j < |rows| ==> rows[j] == rows[1..][j - 1];
      if i :| 0 <= i < |rows| && rows[i].key == k {
        assert i > 0 ==> rows[1..][i - 1].key == k;
      }
    }
  }

  /** Saving the same batch again changes no spend data, so a repeated sync never counts twice. */
  lemma BatchIdempotent(m: map<Key, Spend>, rows: seq<SpendRow>)
    ensures PutAll(PutAll(m, rows), rows) == PutAll(m, rows)
  {
    BatchOverrides(m, rows);
    BatchOverrides(PutAll(m, rows), rows);
  }

  // ----- The spend_raw table -----

  datatype SpendRecord = SpendRecord(id: nat, key: Key, data: Spend)

  ghost predicate UniqueKeys(table: seq<SpendRecord>) {
    forall i, j :: 0 <= i < j < |table| ==> table[i].key != table[j].key
  }

  ghost predicate UniqueIds(table: seq<SpendRecord>, nextId: nat) {
    && (forall i, j :: 0 <= i < j < |table| ==> table[i].id != table[j].id)
    && forall i :: 0 <= i < |table| ==> table[i].id < nextId
  }

  function Contents(table: seq<SpendRecord>): map<Key, Spend> {
    if table == [] then map[] else Contents(table[1..])[table[0].key := table[0].data]
  }

  ghost predicate HasKey(table: seq<SpendRecord>, k: Key) {
    exists i :: 0 <= i < |table| && table[i].key == k
  }

  /** The map has just the table's rows. */
  ghost predicate Holds(table: seq<SpendRecord>, m: map<Key, Spend>) {
    && (forall i :: 0 <= i < |table| ==> table[i].key in m && m[table[i].key] == table[i].data)
    && (forall k :: k in m ==> HasKey(table, k))
  }

  lemma {:induction false} ContentsAre(table: seq<SpendRecord>)
    requires UniqueKeys(table)
    ensures Holds(table, Contents(table))
  {
    if table == [] {
    } else {
      ContentsAre(table[1..]);
      assert forall i :: 0 < i < |table| ==> table[i] == table[1..][i - 1];
      forall k | k in Contents(table) ensures HasKey(table, k) {
        if k == table[0].key {
        } else {
          assert HasKey(table[1..], k);
        }
      }
    }
  }

  /** INSERT ... ON CONFLICT(account_id, date, adset_id) DO UPDATE: the conflicting row keeps its id and place. */
  function UpsertOne(table: seq<SpendRecord>, row: SpendRow, id: nat): seq<SpendRecord> {
    if table == [] then [SpendRecord(id, row.key, row.data)]
    else if table[0].key == row.key then [table[0].(data := row.data)] + table[1..]
    else [table[0]] + UpsertOne(table[1..], row, id)
  }

  /** Rows already there keep their place, key and id; at most new rows follow them. */
  ghost predicate KeepsRows(before: seq<SpendRecord>, after: seq<SpendRecord>) {
    && |before| <= |after|
    && forall i :: 0 <= i < |before| ==> after[i].id == before[i].id && after[i].key == before[i].key
  }

  lemma {:induction false} UpsertOneRows(table: seq<SpendRecord>, row: SpendRow, id: nat)
    ensures KeepsRows(table, UpsertOne(table, row, id))
    ensures if HasKey(table, row.key) then |UpsertOne(table, row, id)| == |table|
            else UpsertOne(table, row, id) == table + [SpendRecord(id, row.key, row.data)]
  {
    if table == [] || table[0].key == row.key {
    } else {
      UpsertOneRows(table[1..], row, id);
      assert forall i :: 0 < i < |table| ==> table[i] == table[1..][i - 1];
      assert HasKey(table, row.key) <==> HasKey(table[1..], row.key);
    }
  }

  lemma {:induction false} UpsertOneContents(table: seq<SpendRecord>, row: SpendRow, id: nat)
    ensures Contents(UpsertOne(table, row, id)) == Contents(table)[row.key := row.data]
  {
    if table == [] {
    } else {
      if table[0].key == row.key {
        assert ([table[0].(data := row.data)] + table[1..])[1..] == table[1..];
      } else {
        UpsertOneContents(table[1..], row, id);
        assert UpsertOne(table, row, id)[1..] == UpsertOne(table[1..], row, id);
      }
    }
  }

  lemma SameRowsStayUnique(before: seq<SpendRecord>, after: seq<SpendRecord>, nextId: nat)
    requires UniqueKeys(before) && UniqueIds(before, nextId)
    requires KeepsRows(before, after) && |after| == |before|
    ensures UniqueKeys(after) && UniqueIds(after, nextId + 1)
  {
  }

  lemma NewRowStaysUnique(table: seq<SpendRecord>, row: SpendRow, id: nat)
    requires UniqueKeys(table) && UniqueIds(table, id) && !HasKey(table, row.key)
    ensures var after := table + [SpendRecord(id, row.key, row.data)]; UniqueKeys(after) && UniqueIds(after, id + 1)
  {
  }

  /** One upsert statement keeps keys and ids unique, and means one map update. */
  lemma UpsertOneMeans(table: seq<SpendRecord>, row: SpendRow, id: nat)
    requires UniqueKeys(table) && UniqueIds(table, id)
    ensures var after := UpsertOne(table, row, id);
      && UniqueKeys(after) && UniqueIds(after, id + 1) && KeepsRows(table, after)
      && Contents(after) == Contents(table)[row.key := row.data]
  {
    UpsertOneRows(table, row, id);
    UpsertOneContents(table, row, id);
    if HasKey(table, row.key) {
      SameRowsStayUnique(table, UpsertOne(table, row, id), id);
    } else {
      NewRowStaysUnique(table, row, id);
    }
  }

  // ----- The store -----

  /** Where a database failure strikes a transaction, if anywhere. */
  datatype Fault = NoFault | BeginFails | PrepareFails | ExecFails(at: nat) | CommitFails

  predicate Strikes(fault: Fault, statements: nat) {
    match fault
    case NoFault => false
    case ExecFails(at) => at < statements
    case _ => true
  }

  class SqlStore {
    var spendRaw: seq<SpendRecord>
    var syncState: map<string, SyncState>
    var synced: set<string>
    var nextId: nat  // the uuid generator: every id drawn is new

    ghost predicate Valid()
      reads this
    {
      UniqueKeys(spendRaw) && UniqueIds(spendRaw, nextId)
    }

    ghost function View(): (t: Tables)
      reads this
      ensures Valid() ==> Holds(spendRaw, t.spend)
    {
      assert Valid() ==> Holds(spendRaw, Contents(spendRaw)) by {
        if UniqueKeys(spendRaw) {
          ContentsAre(spendRaw);
        }
      }
      Tables(Contents(spendRaw), syncState, synced)
    }

    constructor ()
      ensures Valid() && View() == Tables(map[], map[], {})
    {
      spendRaw, syncState, synced, nextId := [], map[], {}, 0;
    }

    method UpsertSpendRows(rows: seq<SpendRow>, fault: Fault) returns (ok: bool)
      requires Valid()
      modifies this`spendRaw, this`nextId
      ensures Valid()
      ensures ok <==> rows == [] || fault.NoFault? || (fault.ExecFails? && fault.at >= |rows|)
      ensures ok ==> View() == old(View()).(spend := PutAll(old(View()).spend, rows))
      ensures !ok ==> spendRaw == old(spendRaw)
      ensures KeepsRows(old(spendRaw), spendRaw)
    {
      if |rows| == 0 {
        return true;
      }
      if fault.BeginFails? || fault.PrepareFails? {
        return false;
      }
      var tx := spendRaw;
      for i := 0 to |rows|
        invariant spendRaw == old(spendRaw) && old(nextId) <= nextId
        invariant UniqueKeys(tx) && UniqueIds(tx, nextId) && KeepsRows(spendRaw, tx)
        invariant PutAll(Contents(tx), rows[i..]) == PutAll(Contents(spendRaw), rows)
        invariant fault.ExecFails? ==> i <= fault.at
      {
        if fault == ExecFails(i) {
          return false;
        }
        UpsertOneMeans(tx, rows[i], nextId);
        tx := UpsertOne(tx, rows[i], nextId);
        nextId := nextId + 1;
        assert rows[i..][1..] == rows[i + 1..];
      }
      if fault.CommitFails? {
        return false;
      }
      spendRaw := tx;
      return true;
    }

    method UpdateSyncState(account: string, date: string, dbOk: bool)
      modifies this`syncState
      ensures syncState == if dbOk then old(syncState)[account := SyncState(date, false)] else old(syncState)
    {
      if dbOk {
        syncState := syncState[account := SyncState(date, false)];
      }
    }

    method SetNextRetry(account: string, dbOk: bool)
      modifies this`syncState
      ensures syncState == if !dbOk then old(syncState) else
        old(syncState)[account := SyncState(if account in old(syncState) then old(syncState)[account].lastOk
          else "", true)]
    {
      if dbOk {
        var lastOk := if account in syncState then syncState[account].lastOk else "";
        syncState := syncState[account := SyncState(lastOk, true)];
      }
    }

    method MarkAccountSynced(account: string, dbOk: bool)
      modifies this`synced
      ensures synced == if dbOk then old(synced) + {account} else old(synced)
    {
      if dbOk {
        synced := synced + {account};
      }
    }
  }
}
