/**
The migration runner as a crash/retry machine. Each run walks the sorted list of migration files, skips
those recorded in schema_migrations, and applies each of the others in one transaction that also records it.
Any step of a run may fail, which ends the run; a later run resumes.
*/
module Migrations {
  import opened Wrappers

  datatype Driver = Sqlite | Postgres

  /** Where a run fails while it works on one file. Both forms of the check query failing is `CheckFails`; a commit
      that reports failure may or may not have taken effect. */
  datatype Fault =
    | NoFault | CheckFails | ReadFails | FkOffFails | BeginFails | ExecFails | RecordFails
    | CommitFails(tookEffect: bool) | FkOnFails

  /** What befalls one run: whether creating the table and listing the directory work, what happens at each file,
      whether the unchecked PRAGMA foreign_keys=ON on the error paths takes effect, and what the pragma is on the
      connection that Open made for the run. */
  datatype Weather = Weather(tableOk: bool, listOk: bool, at: nat -> Fault, restoreOk: bool, fkAtOpen: bool)

  /** The database: its schema, the recorded file names, and the connection's foreign_keys pragma. */
  datatype Db<S> = Db(schema: S, recorded: seq<string>, fkOn: bool)

  /** A script either changes the schema or is rejected by the database. */
  type Scripts<!S> = string -> S -> Option<S>

  // ----- One file, one run -----

  /** What one file's turn makes of the database, and whether the run goes on. */
  function FileTurn<S>(
      driver: Driver, run: Scripts<S>, file: string, fault: Fault, restoreOk: bool, db: Db<S>): (Db<S>, bool) {
    if fault.CheckFails? then (db, false)
    else if file in db.recorded then (db, true)
    else if fault.ReadFails? then (db, false)
    else if driver.Sqlite? && fault.FkOffFails? then (db, false)
    else
      var open := if driver.Sqlite? then db.(fkOn := false) else db;
      var restored := if driver.Sqlite? && restoreOk then open.(fkOn := true) else open;
      var after := run(file)(db.schema);
      if fault.BeginFails? then (open, false)
      else if fault.ExecFails? || after.None? || fault.RecordFails? then (restored, false)
      else
        var committed := Db(after.value, db.recorded + [file], open.fkOn);
        if fault.CommitFails? then
          ((if fault.tookEffect then committed else open).(fkOn := restored.fkOn), false)
        else if driver.Postgres? then (committed, true)
        else if fault.FkOnFails? then (committed, false)
        else (committed.(fkOn := true), true)
  }

  function RunFrom<S>(driver: Driver, run: Scripts<S>, files: seq<string>, i: nat, w: Weather, db: Db<S>): (Db<S>, bool)
    requires i <= |files|
    decreases |files| - i
  {
    if i == |files| then (db, true)
    else
      var (db', goOn) := FileTurn(driver, run, files[i], w.at(i), w.restoreOk, db);
      if goOn then RunFrom(driver, run, files, i + 1, w, db') else (db', false)
  }

  function Run<S>(driver: Driver, run: Scripts<S>, files: seq<string>, w: Weather, db: Db<S>): (Db<S>, bool) {
    if w.tableOk && w.listOk then RunFrom(driver, run, files, 0, w, db) else (db, false)
  }

  // ----- When a run succeeds -----

  /** Nothing that counts strikes this file's turn: a file that is recorded needs only the check, and PostgreSQL has no
      pragma to fail on. */
  predicate Unstruck(driver: Driver, fault: Fault, recorded: bool) {
    && !fault.CheckFails?
    && (recorded || fault.NoFault? || (driver.Postgres? && (fault.FkOffFails? || fault.FkOnFails?)))
  }

  /** The schema after the scripts of the files not recorded, in order, if the database accepts each. */
  function Made<S>(run: Scripts<S>, files: seq<string>, recorded: seq<string>, schema: S): Option<S> {
    if files == [] then Some(schema)
    else if files[0] in recorded then Made(run, files[1..], recorded, schema)
    else
      var after := run(files[0])(schema);
      if after.None? then None else Made(run, files[1..], recorded, after.value)
  }

  /** The run has nothing in its way, the database accepts every script it has yet to run, and this is what they
      make. */
  ghost predicate Succeeds<S>(
      driver: Driver, run: Scripts<S>, files: seq<string>, w: Weather, before: Db<S>, after: Db<S>) {
    && w.tableOk && w.listOk
    && (forall i :: 0 <= i < |files| ==> Unstruck(driver, w.at(i), files[i] in before.recorded))
    && Made(run, files, before.recorded, before.schema) == Some(after.schema)
    && before.recorded <= after.recorded
    && forall file :: file in after.recorded <==> file in before.recorded || file in files
  }

  lemma {:induction false} MadeIgnores<S>(
      run: Scripts<S>, files: seq<string>, recorded: seq<string>, file: string, schema: S)
    requires file !in files
    ensures Made(run, files, recorded + [file], schema) == Made(run, files, recorded, schema)
  {
    if files == [] {
    } else {
      assert files == [files[0]] + files[1..];
      if files[0] in recorded {
        MadeIgnores(run, files[1..], recorded, file, schema);
      } else if run(files[0])(schema).Some? {
        MadeIgnores(run, files[1..], recorded, file, run(files[0])(schema).value);
      }
    }
  }

  /** One turn goes on exactly when nothing strikes it and its script, if it is due, is accepted. */
  lemma TurnGoesOn<S>(
      driver: Driver, run: Scripts<S>, file: string, fault: Fault, restoreOk: bool, db: Db<S>)
    ensures var (db', goOn) := FileTurn(driver, run, file, fault, restoreOk, db);
      && (goOn <==>
            && Unstruck(driver, fault, file in db.recorded)
            && (file in db.recorded || run(file)(db.schema).Some?))
      && (goOn && file in db.recorded ==> db' == db)
      && (goOn && file !in db.recorded ==>
            db'.recorded == db.recorded + [file] && Some(db'.schema) == run(file)(db.schema))
  {
  }

  lemma {:induction false} RunFromSucceeds<S>(
      driver: Driver, run: Scripts<S>, files: seq<string>, i: nat, w: Weather, db: Db<S>)
    requires NoRepeats(files) && i <= |files|
    ensures var (db', ok) := RunFrom(driver, run, files, i, w, db);
      && (ok <==>
            && (forall n :: i <= n < |files| ==> Unstruck(driver, w.at(n), files[n] in db.recorded))
            && Made(run, files[i..], db.recorded, db.schema).Some?)
      && (ok ==> Made(run, files[i..], db.recorded, db.schema) == Some(db'.schema) && db.recorded <= db'.recorded)
      && (ok ==> forall file :: file in db'.recorded <==> file in db.recorded || file in files[i..])
    decreases |files| - i
  {
    if i == |files| {
    } else {
      var (mid, goOn) := FileTurn(driver, run, files[i], w.at(i), w.restoreOk, db);
      TurnGoesOn(driver, run, files[i], w.at(i), w.restoreOk, db);
      assert files[i..][0] == files[i] && files[i..][1..] == files[i + 1..];
      assert files[i..] == [files[i]] + files[i + 1..];
      if goOn {
        RunFromSucceeds(driver, run, files, i + 1, w, mid);
        if files[i] !in db.recorded {
          MadeIgnores(run, files[i + 1..], db.recorded, files[i], mid.schema);
        }
      }
    }
  }

  /** A run reports success exactly when nothing is in its way and every script due is accepted. */
  lemma RunSucceeds<S>(driver: Driver, run: Scripts<S>, files: seq<string>, w: Weather, db: Db<S>)
    requires NoRepeats(files)
    ensures var (db', ok) := Run(driver, run, files, w, db);
      && (ok ==> Succeeds(driver, run, files, w, db, db'))
      && (!ok ==> forall after :: !Succeeds(driver, run, files, w, db, after))
  {
    RunFromSucceeds(driver, run, files, 0, w, db);
    assert files[0..] == files;
  }

  class Database<S(0)> {
    const driver: Driver
    var schema: S
    var recorded: seq<string>
    var fkOn: bool

    constructor (driver: Driver, schema: S, recorded: seq<string>, fkOn: bool)
      ensures this.driver == driver && View() == Db(schema, recorded, fkOn)
    {
      this.driver, this.schema, this.recorded, this.fkOn := driver, schema, recorded, fkOn;
    }

    function View(): Db<S>
      reads this
    {
      Db(schema, recorded, fkOn)
    }

    method RunMigrations(scripts: Scripts<S>, files: seq<string>, w: Weather) returns (ok: bool)
      modifies this
      ensures (View(), ok) == Run(driver, scripts, files, w, old(View()))
      ensures NoRepeats(files) && ok ==> Succeeds(driver, scripts, files, w, old(View()), View())
      ensures NoRepeats(files) && !ok ==> forall after :: !Succeeds(driver, scripts, files, w, old(View()), after)
    {
      if NoRepeats(files) {
        RunSucceeds(driver, scripts, files, w, View());
      }
      if !w.tableOk || !w.listOk {
        return false;
      }
      for i := 0 to |files|
        invariant RunFrom(driver, scripts, files, i, w, View()) == RunFrom(driver, scripts, files, 0, w, old(View()))
      {
        var fault := w.at(i);
        if fault.CheckFails? {
          return false;
        }
        if files[i] in recorded {
          continue;
        }
        if fault.ReadFails? {
          return false;
        }
        if driver.Sqlite? {
          if fault.FkOffFails? {
            return false;
          }
          fkOn := false;
        }
        if fault.BeginFails? {
          return false;
        }
        var tx := scripts(files[i])(schema);
        if fault.ExecFails? || tx.None? || fault.RecordFails? {
          RestoreForeignKeys(w.restoreOk);
          return false;
        }
        if fault.CommitFails? {
          if fault.tookEffect {
            schema, recorded := tx.value, recorded + [files[i]];
          }
          RestoreForeignKeys(w.restoreOk);
          return false;
        }
        schema, recorded := tx.value, recorded + [files[i]];
        if driver.Sqlite? {
          if fault.FkOnFails? {
            return false;
          }
          fkOn := true;
        }
      }
      return true;
    }

    method RestoreForeignKeys(takesEffect: bool)
      modifies this`fkOn
      ensures fkOn == if driver.Sqlite? && takesEffect then true else old(fkOn)
    {
      if driver.Sqlite? && takesEffect {
        fkOn := true;
      }
    }
  }

  // ----- Resuming -----

  /** The schema the files make when each is applied once, in order. */
  function Fold<S>(run: Scripts<S>, files: seq<string>, schema: S): Option<S> {
    if files == [] then Some(schema)
    else
      var before := Fold(run, files[..|files| - 1], schema);
      if before.None? then None else run(files[|files| - 1])(before.value)
  }

  /** The first k files, and no others, are recorded, and the schema is what those files make of the empty one. */
  predicate AppliedFirst<S(==)>(run: Scripts<S>, files: seq<string>, empty: S, db: Db<S>, k: nat) {
    k <= |files| && db.recorded == files[..k] && Fold(run, files[..k], empty) == Some(db.schema)
  }

  lemma TurnAdvances<S>(
      driver: Driver, run: Scripts<S>, files: seq<string>, empty: S, i: nat, fault: Fault, restoreOk: bool, db: Db<S>,
      k: nat)
    returns (k': nat)
    requires NoRepeats(files) && i < |files| && i <= k && AppliedFirst(run, files, empty, db, k)
    ensures var (db', goOn) := FileTurn(driver, run, files[i], fault, restoreOk, db);
      k <= k' && AppliedFirst(run, files, empty, db', k') && (goOn ==> i < k')
  {
    k' := k;
    if i < k {
      assert files[i] == files[..k][i];
    } else {
      var (db', goOn) := FileTurn(driver, run, files[i], fault, restoreOk, db);
      assert files[..k + 1] == files[..k] + [files[k]];
      assert files[..k + 1][..k] == files[..k];
      if db'.recorded != db.recorded {
        k' := k + 1;
      }
    }
  }

  lemma {:induction false} RunFromAdvances<S>(
      driver: Driver, run: Scripts<S>, files: seq<string>, empty: S, i: nat, w: Weather, db: Db<S>, k: nat)
    returns (k': nat)
    requires NoRepeats(files) && i <= k && AppliedFirst(run, files, empty, db, k)
    ensures var (db', ok) := RunFrom(driver, run, files, i, w, db);
      k <= k' && AppliedFirst(run, files, empty, db', k') && (ok ==> k' == |files|)
    decreases |files| - i
  {
    k' := k;
    if i == |files| {
    } else {
      k' := TurnAdvances(driver, run, files, empty, i, w.at(i), w.restoreOk, db, k);
      var (mid, goOn) := FileTurn(driver, run, files[i], w.at(i), w.restoreOk, db);
      if goOn {
        k' := RunFromAdvances(driver, run, files, empty, i + 1, w, mid, k');
      }
    }
  }

  /** A run starts on a connection of its own, with that connection's pragma. */
  function Open<S>(w: Weather, db: Db<S>): Db<S> {
    db.(fkOn := w.fkAtOpen)
  }

  function OpenAndRun<S>(driver: Driver, run: Scripts<S>, files: seq<string>, w: Weather, db: Db<S>): (Db<S>, bool) {
    Run(driver, run, files, w, Open(w, db))
  }

  /** The database after a sequence of runs, whatever befell each. */
  function Runs<S>(driver: Driver, run: Scripts<S>, files: seq<string>, ws: seq<Weather>, db: Db<S>): Db<S> {
    if ws == [] then db
    else OpenAndRun(driver, run, files, ws[|ws| - 1], Runs(driver, run, files, ws[..|ws| - 1], db)).0
  }

  /** However many runs fail, and wherever, the recorded files are a first part of the list and the schema is exactly
      what those files make, each applied once. */
  lemma {:induction false} AlwaysAPrefix<S>(
      driver: Driver, run: Scripts<S>, files: seq<string>, ws: seq<Weather>, db: Db<S>) returns (k: nat)
    requires NoRepeats(files) && db.recorded == []
    ensures AppliedFirst(run, files, db.schema, Runs(driver, run, files, ws, db), k)
  {
    if ws == [] {
      k := 0;
    } else {
      var w := ws[|ws| - 1];
      k := AlwaysAPrefix(driver, run, files, ws[..|ws| - 1], db);
      if w.tableOk && w.listOk {
        var before := Open(w, Runs(driver, run, files, ws[..|ws| - 1], db));
        k := RunFromAdvances(driver, run, files, db.schema, 0, w, before, k);
      }
    }
  }

  const CLEAR := Weather(true, true, _ => NoFault, true, true)

  /** A first success after any failures leaves the schema and the record of one clean run on the empty database,
      and the clean run succeeds too. */
  lemma SuccessEqualsCleanRun<S>(
      driver: Driver, run: Scripts<S>, files: seq<string>, ws: seq<Weather>, w: Weather, db: Db<S>)
    requires NoRepeats(files) && db.recorded == []
    requires OpenAndRun(driver, run, files, w, Runs(driver, run, files, ws, db)).1
    ensures
      var resumed := OpenAndRun(driver, run, files, w, Runs(driver, run, files, ws, db)).0;
      var clean := OpenAndRun(driver, run, files, CLEAR, db);
      && clean.1 && resumed.schema == clean.0.schema && resumed.recorded == clean.0.recorded == files
      && Fold(run, files, db.schema) == Some(resumed.schema)
  {
    var before := Runs(driver, run, files, ws, db);
    var k := AlwaysAPrefix(driver, run, files, ws, db);
    k := RunFromAdvances(driver, run, files, db.schema, 0, w, Open(w, before), k);
    assert files[..|files|] == files;
    assert AppliedFirst(run, files, db.schema, Open(CLEAR, db), 0);
    CleanRunSucceeds(driver, run, files, db.schema, 0, Open(CLEAR, db));
  }

  lemma {:induction false} FoldOfPrefix<S>(run: Scripts<S>, files: seq<string>, k: nat, schema: S)
    requires k <= |files| && Fold(run, files, schema).Some?
    ensures Fold(run, files[..k], schema).Some?
  {
    if k == |files| {
      assert files[..k] == files;
    } else {
      FoldOfPrefix(run, files[..|files| - 1], k, schema);
      assert files[..|files| - 1][..k] == files[..k];
    }
  }

  lemma {:induction false} CleanRunSucceeds<S>(
      driver: Driver, run: Scripts<S>, files: seq<string>, empty: S, i: nat, db: Db<S>)
    requires NoRepeats(files) && AppliedFirst(run, files, empty, db, i) && Fold(run, files, empty).Some?
    ensures var (db', ok) := RunFrom(driver, run, files, i, CLEAR, db);
      ok && db'.recorded == files && Fold(run, files, empty) == Some(db'.schema)
    decreases |files| - i
  {
    if i < |files| {
      FoldOfPrefix(run, files, i + 1, empty);
      assert files[..i + 1] == files[..i] + [files[i]];
      assert files[..i + 1][..i] == files[..i];
      assert files[i] !in files[..i];
      var (mid, _) := FileTurn(driver, run, files[i], NoFault, true, db);
      assert AppliedFirst(run, files, empty, mid, i + 1);
      CleanRunSucceeds(driver, run, files, empty, i + 1, mid);
    } else {
      assert files[..i] == files;
    }
  }

  lemma {:induction false} NothingLeftToApply<S>(
      driver: Driver, run: Scripts<S>, files: seq<string>, i: nat, w: Weather, db: Db<S>)
    requires i <= |files| && db.recorded == files
    ensures RunFrom(driver, run, files, i, w, db).0 == db
    decreases |files| - i
  {
    if i == |files| {
    } else {
      NothingLeftToApply(driver, run, files, i + 1, w, db);
    }
  }

  /** Once a run has succeeded, no later run changes anything, not even its connection's pragma. */
  lemma LaterRunsChangeNothing<S>(
      driver: Driver, run: Scripts<S>, files: seq<string>, ws: seq<Weather>, w: Weather, later: Weather, db: Db<S>)
    requires NoRepeats(files) && db.recorded == []
    requires OpenAndRun(driver, run, files, w, Runs(driver, run, files, ws, db)).1
    ensures var done := OpenAndRun(driver, run, files, w, Runs(driver, run, files, ws, db)).0;
      OpenAndRun(driver, run, files, later, done).0 == Open(later, done)
  {
    var done := OpenAndRun(driver, run, files, w, Runs(driver, run, files, ws, db)).0;
    SuccessEqualsCleanRun(driver, run, files, ws, w, db);
    NothingLeftToApply(driver, run, files, 0, later, Open(later, done));
  }

  // ----- The foreign_keys pragma -----

  /** Where the run stopped short: the file, and the database as that file's turn began. */
  function StopsAt<S>(driver: Driver, run: Scripts<S>, files: seq<string>, i: nat, w: Weather, db: Db<S>)
      : (stop: Option<(nat, Db<S>)>)
    requires i <= |files|
    ensures stop.Some? ==> i <= stop.value.0 < |files|
    decreases |files| - i
  {
    if i == |files| then None
    else
      var (db', goOn) := FileTurn(driver, run, files[i], w.at(i), w.restoreOk, db);
      if goOn then StopsAt(driver, run, files, i + 1, w, db') else Some((i, db))
  }

  /** A failure that strikes when the file's transaction has taken effect: the commit's own report, or, on SQLite, the
      restore after it. */
  predicate StrikesLate(driver: Driver, fault: Fault) {
    fault == CommitFails(true) || (driver.Sqlite? && fault.FkOnFails?)
  }

  /** A turn that stops the run leaves schema and record as they were, unless its script was accepted and the failure
      struck after the transaction had taken effect. */
  lemma StoppedTurn<S>(driver: Driver, run: Scripts<S>, file: string, fault: Fault, restoreOk: bool, db: Db<S>)
    ensures var ((db', goOn), after) := (FileTurn(driver, run, file, fault, restoreOk, db), run(file)(db.schema));
      !goOn ==>
        if file !in db.recorded && after.Some? && StrikesLate(driver, fault)
        then db'.schema == after.value && db'.recorded == db.recorded + [file]
        else db'.schema == db.schema && db'.recorded == db.recorded
  {
  }

  /** A run that stops short has applied just the files due before the one it stopped at, each once, and that one too
      only if the failure struck after its transaction had taken effect. */
  lemma {:induction false} StoppedRun<S>(
      driver: Driver, run: Scripts<S>, files: seq<string>, i: nat, w: Weather, db: Db<S>)
    requires NoRepeats(files) && i <= |files|
    ensures var (stop, (after, ok)) := (StopsAt(driver, run, files, i, w, db), RunFrom(driver, run, files, i, w, db));
      && (ok <==> stop.None?)
      && (stop.Some? ==>
            var (n, mid) := stop.value;
            && Made(run, files[i..n], db.recorded, db.schema) == Some(mid.schema)
            && (forall file :: file in mid.recorded <==> file in db.recorded || file in files[i..n])
            && if files[n] !in db.recorded && run(files[n])(mid.schema).Some? && StrikesLate(driver, w.at(n))
               then Some(after.schema) == run(files[n])(mid.schema) && after.recorded == mid.recorded + [files[n]]
               else after.schema == mid.schema && after.recorded == mid.recorded)
    decreases |files| - i
  {
    if i == |files| {
    } else {
      var (mid, goOn) := FileTurn(driver, run, files[i], w.at(i), w.restoreOk, db);
      TurnGoesOn(driver, run, files[i], w.at(i), w.restoreOk, db);
      StoppedTurn(driver, run, files[i], w.at(i), w.restoreOk, db);
      if goOn {
        StoppedRun(driver, run, files, i + 1, w, mid);
        var stop := StopsAt(driver, run, files, i + 1, w, mid);
        if stop.Some? {
          var n := stop.value.0;
          assert files[i..n] == [files[i]] + files[i + 1..n];
          assert files[i..n][1..] == files[i + 1..n];
          assert files[i] !in files[i + 1..n];
          if files[i] !in db.recorded {
            MadeIgnores(run, files[i + 1..n], db.recorded, files[i], mid.schema);
          }
        }
      }
    }
  }

  /** This file's turn got as far as switching enforcement off. */
  predicate Applies<S>(file: string, fault: Fault, db: Db<S>) {
    file !in db.recorded && !fault.CheckFails? && !fault.ReadFails? && !fault.FkOffFails?
  }

  /** Some turn of the run did. */
  predicate AppliesSome<S>(run: Scripts<S>, files: seq<string>, i: nat, w: Weather, db: Db<S>)
    requires i <= |files|
    decreases |files| - i
  {
    i < |files| &&
    (Applies(files[i], w.at(i), db) ||
     var (db', goOn) := FileTurn(Sqlite, run, files[i], w.at(i), w.restoreOk, db);
     goOn && AppliesSome(run, files, i + 1, w, db'))
  }

  /** The turn ends with enforcement off: the transaction could not begin, which has no restore; or the script was
      rejected, or recording or committing it failed, and the restore had no effect; or the script was committed and
      the checked restore failed. */
  predicate LeavesOff<S>(run: Scripts<S>, file: string, fault: Fault, restoreOk: bool, db: Db<S>) {
    Applies(file, fault, db) &&
    (fault.BeginFails? ||
     if fault.ExecFails? || fault.RecordFails? || fault.CommitFails? || run(file)(db.schema).None? then !restoreOk
     else fault.FkOnFails?)
  }

  /** From any file on, enforcement ends on exactly when it was on before or the run switched it off to apply a file,
      and the run did not stop in a turn that leaves it off. So a run that starts with it off also leaves it off when
      it applies nothing. */
  lemma {:induction false} EnforcementAfter<S>(run: Scripts<S>, files: seq<string>, i: nat, w: Weather, db: Db<S>)
    requires i <= |files|
    ensures var stop := StopsAt(Sqlite, run, files, i, w, db);
      RunFrom(Sqlite, run, files, i, w, db).0.fkOn <==>
        (db.fkOn || AppliesSome(run, files, i, w, db))
        && !(stop.Some? && LeavesOff(run, files[stop.value.0], w.at(stop.value.0), w.restoreOk, stop.value.1))
    decreases |files| - i
  {
    if i == |files| {
    } else {
      var (db', goOn) := FileTurn(Sqlite, run, files[i], w.at(i), w.restoreOk, db);
      if goOn {
        EnforcementAfter(run, files, i + 1, w, db');
      }
    }
  }

  /** A SQLite run that starts with enforcement on leaves it off exactly by stopping in a turn that does. */
  lemma EnforcementLeftOff<S>(run: Scripts<S>, files: seq<string>, w: Weather, db: Db<S>)
    requires db.fkOn
    ensures var stop := StopsAt(Sqlite, run, files, 0, w, db);
      !Run(Sqlite, run, files, w, db).0.fkOn <==>
        && w.tableOk && w.listOk
        && stop.Some? && LeavesOff(run, files[stop.value.0], w.at(stop.value.0), w.restoreOk, stop.value.1)
  {
    EnforcementAfter(run, files, 0, w, db);
  }
}
