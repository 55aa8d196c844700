/** What the migration verifier's outcomes mean for the database, written out check by check. */
module MigrationOutcomes {
  import opened Wrappers
  import opened Migration

  /** The migration runs over a database with a register, and is entered in it. */
  lemma MigratedMeans(script: Script, d: Db, m: Db)
    ensures Migrated(script, d) == Some(m) <==>
            var x := script.migrate(d.(tables := d.tables + {"schema_migrations"}));
            x.Some? && m == x.value.(migrations := x.value.migrations + {"007_consumer_pack.sql"})
  {
  }

  /** Effects one after the other: each acts on what the one before it left. */
  ghost predicate Chain(effects: seq<Effect>, d: Db, dbs: seq<Db>) {
    && |dbs| == |effects| + 1 && dbs[0] == d
    && forall i | 0 <= i < |effects| :: effects[i](dbs[i]) == Some(dbs[i + 1])
  }

  lemma {:induction false} ThroughIsChain(effects: seq<Effect>, d: Db) returns (dbs: seq<Db>)
    ensures Through(effects, d).Some? ==> Chain(effects, d, dbs) && dbs[|effects|] == Through(effects, d).value
    decreases |effects|
  {
    if effects == [] { return [d]; }
    var n := |effects| - 1;
    dbs := ThroughIsChain(effects[..n], d);
    if Through(effects, d).Some? { dbs := dbs + [Through(effects, d).value]; }
  }

  lemma {:induction false} ChainIsThrough(effects: seq<Effect>, d: Db, dbs: seq<Db>)
    requires Chain(effects, d, dbs)
    ensures Through(effects, d) == Some(dbs[|effects|])
    decreases |effects|
  {
    if effects != [] {
      var n := |effects| - 1;
      assert forall i | 0 <= i < n :: effects[..n][i] == effects[i];
      ChainIsThrough(effects[..n], d, dbs[..n + 1]);
    }
  }

  ghost predicate Holds(names: seq<string>, have: set<string>) {
    forall i | 0 <= i < |names| :: names[i] in have
  }

  lemma HoldsMeans(names: seq<string>, have: set<string>)
    ensures Holds(names, have) <==> AllIn(names, have)
  {
  }

  /** Every table, index and rule of the consumer pack. */
  ghost predicate HasStructure(d: Db) {
    Holds(EXPECTED_TABLES, d.tables) && Holds(EXPECTED_INDEXES, d.indexes) && Holds(EXPECTED_RULES, d.rules)
  }

  /** The rows that were there before: the same counts, in tables that can all still be read. */
  ghost predicate HasOldData(counts: string, d: Db) {
    d.counts == counts && Holds(KEPT_TABLES, d.tables) && Holds(SNAPSHOT_TABLES, d.tables)
  }

  lemma StructureMeans(d: Db)
    ensures HasStructure(d) <==> StructureComplete(d)
  {
    hide AllIn, Holds;
    HoldsMeans(EXPECTED_TABLES, d.tables);
    HoldsMeans(EXPECTED_INDEXES, d.indexes);
    HoldsMeans(EXPECTED_RULES, d.rules);
  }

  lemma OldDataMeans(counts: string, d: Db)
    ensures HasOldData(counts, d) <==> DataKept(counts, d) && Snapshot(d).Some?
  {
    hide AllIn, Holds;
    HoldsMeans(KEPT_TABLES, d.tables);
    HoldsMeans(SNAPSHOT_TABLES, d.tables);
    SnapshotMeans(d);
  }

  lemma SnapshotMeans(d: Db)
    ensures Snapshot(d).Some? <==> AllIn(SNAPSHOT_TABLES, d.tables)
  {
  }

  /** An apply run without faults would apply exactly a migration that is not recorded, goes through, and
      leaves the whole structure and the data that was there before. */
  lemma WouldApplyMeans(script: Script, d: Db)
    ensures WouldApply(script, d.counts, d) <==>
            && "007_consumer_pack.sql" !in d.migrations
            && exists m: Db :: Migrated(script, d) == Some(m) && HasStructure(m) && HasOldData(d.counts, m)
  {
    hide StructureComplete, DataKept, Snapshot, HasStructure, HasOldData, Migrated;
    if Migrated(script, d).Some? {
      StructureMeans(Migrated(script, d).value);
      OldDataMeans(d.counts, Migrated(script, d).value);
    }
  }

  /** What a dry run tries on a migrated database m: i after the rows, u after the update, x after the
      deletion, y after two tenants used one key. */
  ghost predicate Tries(script: Script, m: Db, i: Db, u: Db, x: Db, y: Db) {
    && (exists dbs: seq<Db> :: Chain(script.inserts, m, dbs) && dbs[|script.inserts|] == i)
    && script.update(i) == Some(u) && script.delete(u) == Some(x) && script.twoTenants(x) == Some(y)
  }

  /** And what it wants of it: the structure is whole, the update and the deletion are both discarded, a zero
      amount is refused, two tenants can share a key, one cannot use it twice, and the data that was there
      before is still there. */
  ghost predicate Proves(script: Script, counts: string, m: Db, i: Db, u: Db, x: Db, y: Db) {
    && HasStructure(m) && Tries(script, m, i, u, x, y)
    && script.updateBlocked(u) && script.deleteBlocked(x)
    && script.zeroAmount(x).None? && script.sameTenant(y).None? && HasOldData(counts, y)
  }

  /** A dry run without faults ends well exactly when the migration goes through and this holds. */
  lemma WouldPassMeans(script: Script, d: Db)
    ensures WouldPass(script, d.counts, d, true) <==>
            exists m: Db, i: Db, u: Db, x: Db, y: Db ::
              Migrated(script, d) == Some(m) && Proves(script, d.counts, m, i, u, x, y)
  {
    hide Migrated, Proves, WouldPass;
    if WouldPass(script, d.counts, d, true) {
      var m, i, u, x, y := PassProves(script, d);
    }
    forall m: Db, i: Db, u: Db, x: Db, y: Db | Migrated(script, d) == Some(m) && Proves(script, d.counts, m, i, u, x, y)
      ensures WouldPass(script, d.counts, d, true)
    {
      ProvesPass(script, d, m, i, u, x, y);
    }
  }

  lemma PassProves(script: Script, d: Db) returns (m: Db, i: Db, u: Db, x: Db, y: Db)
    requires WouldPass(script, d.counts, d, true)
    ensures Migrated(script, d) == Some(m) && Proves(script, d.counts, m, i, u, x, y)
  {
    hide StructureComplete, DataKept, Snapshot, HasStructure, HasOldData, Migrated, Chain, Through;
    m := Migrated(script, d).value;
    i := Through(script.inserts, m).value;
    u := script.update(i).value;
    x := script.delete(u).value;
    y := script.twoTenants(x).value;
    StructureMeans(m);
    OldDataMeans(d.counts, y);
    RowsMean(script, m);
  }

  lemma ProvesPass(script: Script, d: Db, m: Db, i: Db, u: Db, x: Db, y: Db)
    requires Migrated(script, d) == Some(m) && Proves(script, d.counts, m, i, u, x, y)
    ensures WouldPass(script, d.counts, d, true)
  {
    hide StructureComplete, DataKept, Snapshot, HasStructure, HasOldData, Migrated, Through;
    StructureMeans(m);
    OldDataMeans(d.counts, y);
    var dbs :| Chain(script.inserts, m, dbs) && dbs[|script.inserts|] == i;
    ChainIsThrough(script.inserts, m, dbs);
    TrialGoes(script, m, i, u, x);
  }

  lemma TrialGoes(script: Script, m: Db, i: Db, u: Db, x: Db)
    requires Through(script.inserts, m) == Some(i) && script.update(i) == Some(u) && script.delete(u) == Some(x)
    requires script.updateBlocked(u) && script.deleteBlocked(x)
    ensures LedgerTrial(script, m) == Some((x, 0))
  {
    hide Through;
  }

  lemma RowsMean(script: Script, m: Db)
    ensures forall i: Db :: Through(script.inserts, m) == Some(i) <==>
              exists dbs: seq<Db> :: Chain(script.inserts, m, dbs) && dbs[|script.inserts|] == i
  {
    hide Through;
    var dbs := ThroughIsChain(script.inserts, m);
    forall e: seq<Db> | Chain(script.inserts, m, e)
      ensures Through(script.inserts, m) == Some(e[|script.inserts|])
    {
      ChainIsThrough(script.inserts, m, e);
    }
  }

  /** What a dry run that ended well has seen, whatever failed: the structure, the update and the deletion
      discarded, the shared key, and the rows that were there before. */
  lemma WithstandsMeans(script: Script, counts: string, m: Db)
    ensures Withstands(script, counts, m) <==>
            exists i: Db, u: Db, x: Db, y: Db ::
              && HasStructure(m) && Tries(script, m, i, u, x, y) && script.updateBlocked(u) && script.deleteBlocked(x)
              && y.counts == counts && Holds(KEPT_TABLES, y.tables)
  {
    hide StructureComplete, HasStructure, Chain, Through, AllIn, Holds;
    StructureMeans(m);
    RowsMean(script, m);
    forall y: Db
      ensures Holds(KEPT_TABLES, y.tables) <==> AllIn(KEPT_TABLES, y.tables)
    {
      HoldsMeans(KEPT_TABLES, y.tables);
    }
    if Withstands(script, counts, m) {
      var i := Through(script.inserts, m).value;
      var u := script.update(i).value;
      var x := script.delete(u).value;
      assert Tries(script, m, i, u, x, script.twoTenants(x).value);
    }
    forall i: Db, u: Db, x: Db, y: Db |
        HasStructure(m) && Tries(script, m, i, u, x, y) && script.updateBlocked(u) && script.deleteBlocked(x)
      ensures LedgerTrial(script, m) == Some((x, 0))
    {
      assert Through(script.inserts, m) == Some(i);
      TrialGoes(script, m, i, u, x);
    }
  }

  /** How many of the update and the deletion got through. */
  lemma TrialCounts(script: Script, m: Db)
    ensures LedgerTrial(script, m).Some? ==>
              var i := Through(script.inserts, m).value;
              var u := script.update(i).value;
              var (x, n) := LedgerTrial(script, m).value;
              && script.delete(u) == Some(x) && n <= 2
              && (n == 0 <==> script.updateBlocked(u) && script.deleteBlocked(x))
              && (n == 2 <==> !script.updateBlocked(u) && !script.deleteBlocked(x))
  {
    hide Through;
  }

  /** What a statement leaves that ought to be refused, refused or not. */
  ghost predicate Leaves(effect: Effect, d: Db, after: Db) {
    effect(d) == Some(after) || (effect(d) == None && after == d)
  }

  /** Everything that must go through does, one after the other, and the tables of the snapshot are there at
      the end. */
  ghost predicate AllTried(script: Script, m: Db, i: Db, u: Db, x: Db, z: Db, y: Db, e: Db) {
    && Through(script.inserts, m) == Some(i) && script.update(i) == Some(u) && script.delete(u) == Some(x)
    && Leaves(script.zeroAmount, x, z) && script.twoTenants(z) == Some(y) && Leaves(script.sameTenant, y, e)
    && Holds(SNAPSHOT_TABLES, e.tables)
  }

  /** When the checks can all be made: in an apply run when the tables of the snapshot are there, in a dry run
      when everything can be tried. */
  lemma CompletesMeans(script: Script, m: Db)
    ensures Completes(script, m, true) <==> Holds(SNAPSHOT_TABLES, m.tables)
    ensures Completes(script, m, false) <==>
            exists i: Db, u: Db, x: Db, z: Db, y: Db, e: Db :: AllTried(script, m, i, u, x, z, y, e)
  {
    ReadableMeans(m);
    hide AllTried, Holds, Snapshot, ProbesEnd;
    if Completes(script, m, false) {
      var i, u, x, z, y, e := CompletesTries(script, m);
    }
    forall i: Db, u: Db, x: Db, z: Db, y: Db, e: Db | AllTried(script, m, i, u, x, z, y, e)
      ensures Completes(script, m, false)
    {
      TriedCompletes(script, m, i, u, x, z, y, e);
    }
  }

  lemma ReadableMeans(d: Db)
    ensures Snapshot(d).Some? <==> Holds(SNAPSHOT_TABLES, d.tables)
  {
    hide AllIn, Holds, Snapshot;
    HoldsMeans(SNAPSHOT_TABLES, d.tables);
    SnapshotMeans(d);
  }

  lemma CompletesTries(script: Script, m: Db) returns (i: Db, u: Db, x: Db, z: Db, y: Db, e: Db)
    requires Completes(script, m, false)
    ensures AllTried(script, m, i, u, x, z, y, e)
  {
    hide Through, Holds, Snapshot;
    i := Through(script.inserts, m).value;
    u := script.update(i).value;
    x := script.delete(u).value;
    z := Attempted(script.zeroAmount, x);
    y := script.twoTenants(z).value;
    e := Attempted(script.sameTenant, y);
    ReadableMeans(e);
  }

  lemma TriedCompletes(script: Script, m: Db, i: Db, u: Db, x: Db, z: Db, y: Db, e: Db)
    requires AllTried(script, m, i, u, x, z, y, e)
    ensures Completes(script, m, false)
  {
    hide Through, Holds, Snapshot;
    assert Attempted(script.zeroAmount, x) == z && Attempted(script.sameTenant, y) == e;
    ReadableMeans(e);
  }

  /** A migration is applied once: after an apply run that succeeded, another one without faults finds it
      recorded and changes nothing. */
  method ApplyTwice(d: Db, schedule: seq<Fault>, script: Script, again: Script)
      returns (first: Outcome, second: Outcome, after: Db, end: Db)
    ensures first == Applied ==> MIGRATION in after.migrations && end == after
    ensures first == Applied && Snapshot(after).Some? ==> second == AlreadyApplied
  {
    hide Talk, Kept, WouldApply, WouldPass, WouldFail, Snapshot, Migrated;
    var c := new Connection(d, schedule);
    first := Verify(c, script, true);
    c.Close();
    after := c.session.committed;
    MigratedMeans(script, d, after);
    c := new Connection(after, []);
    second := Verify(c, again, true);
    end := c.session.committed;
    NewOnly(again, after, end);
  }

  /** The session is PostgreSQL's: an error aborts a transaction, after which everything but its end and a
      rollback to a savepoint is refused, a commit included; the lock is the session's and outlives it. */
  lemma ErrorAborts(s: Session, stmt: Stmt)
    ensures s.tx.Active? && !Obeyed(s, stmt).ok ==> Obeyed(s, stmt).session == s.(tx := Aborted(s.tx.saves))
    ensures s.tx.Aborted? && !stmt.Rollback? && !stmt.Commit? && !stmt.RollbackTo? ==> Obeyed(s, stmt) == Answer(s, false)
    ensures !s.tx.Active? && !Obeyed(s, stmt).ok ==> Obeyed(s, stmt).session == s
  {
    hide LastSave;
  }

  lemma EndsOfTransactions(s: Session)
    ensures Obeyed(s, Rollback) == Answer(Session(s.committed, Idle, s.locked), true)
    ensures Obeyed(s, Commit) == Answer(Session(if s.tx.Active? then s.tx.work else s.committed, Idle, s.locked), true)
    ensures s.tx.Idle? ==> Obeyed(s, Begin) == Answer(Session(s.committed, Active(s.committed, []), s.locked), true)
    ensures !s.tx.Aborted? ==> Obeyed(s, AdvisoryLock) == Answer(Session(s.committed, s.tx, true), true)
    ensures !s.tx.Aborted? ==> Obeyed(s, AdvisoryUnlock) == Answer(Session(s.committed, s.tx, false), true)
  {
  }

  lemma NewOnly(script: Script, before: Db, after: Db)
    ensures Kept(script, true, before, after) && MIGRATION in before.migrations ==> after == before
  {
  }
}
