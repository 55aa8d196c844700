/** The migration verifier of scripts/consumer-migrate-verify.ts over a PostgreSQL session in which any
    statement may fail, including the ones that clean up. */
module Migration {
  import opened Wrappers

  /** What the verifier looks at. `probes` counts the rows its own write probes insert. */
  datatype Db = Db(
    migrations: set<string>, tables: set<string>, indexes: set<string>, rules: set<string>,
    counts: string, probes: nat)

  /** What a statement does to the database it sees, or its rejection by that database. */
  type Effect = Db -> Option<Db>

  datatype Save = Save(name: string, db: Db)

  /** No transaction; one under way; or one that an error has aborted. */
  datatype Tx = Idle | Active(work: Db, saves: seq<Save>) | Aborted(saves: seq<Save>)

  datatype Session = Session(committed: Db, tx: Tx, locked: bool)

  /** A statement may fail for reasons of its own, or be carried out without the script ever learning it. */
  datatype Fault = Fine | Fails | LostAnswer

  datatype Stmt =
    | Begin | Commit | Rollback | AdvisoryLock | AdvisoryUnlock
    | Savepoint(name: string) | RollbackTo(name: string) | Release(name: string)
    | Do(effect: Effect)

  /** The most recent savepoint of a name. */
  function LastSave(saves: seq<Save>, name: string): (i: Option<nat>)
    ensures i.Some? ==> i.value < |saves| && saves[i.value].name == name
    ensures saves != [] && saves[|saves| - 1].name == name ==> i == Some(|saves| - 1)
  {
    if saves == [] then None
    else if saves[|saves| - 1].name == name then Some(|saves| - 1)
    else LastSave(saves[..|saves| - 1], name)
  }

  /** A session after an error: inside a transaction everything up to the next rollback is refused. */
  function Broken(s: Session): Session {
    if s.tx.Active? then s.(tx := Aborted(s.tx.saves)) else s
  }

  datatype Answer = Answer(session: Session, ok: bool)

  function Refused(s: Session): Answer { Answer(Broken(s), false) }

  /** What the database makes of a statement of its own accord. */
  function Obeyed(s: Session, stmt: Stmt): Answer {
    match stmt
    case Rollback => Answer(s.(tx := Idle), true)
    case Commit =>
      if s.tx.Active? then Answer(s.(committed := s.tx.work, tx := Idle), true) else Answer(s.(tx := Idle), true)
    case RollbackTo(name) =>
      var saves := if s.tx.Idle? then [] else s.tx.saves;
      var i := LastSave(saves, name);
      if i.None? then Refused(s) else Answer(s.(tx := Active(saves[i.value].db, saves[..i.value + 1])), true)
    case Begin =>
      if s.tx.Idle? then Answer(s.(tx := Active(s.committed, [])), true) else Answer(s, !s.tx.Aborted?)
    case Savepoint(name) =>
      if !s.tx.Active? then Refused(s)
      else Answer(s.(tx := Active(s.tx.work, s.tx.saves + [Save(name, s.tx.work)])), true)
    case Release(name) =>
      if !s.tx.Active? then Refused(s)
      else
        (match LastSave(s.tx.saves, name)
         case None => Refused(s)
         case Some(i) => Answer(s.(tx := Active(s.tx.work, s.tx.saves[..i])), true))
    case AdvisoryLock => if s.tx.Aborted? then Refused(s) else Answer(s.(locked := true), true)
    case AdvisoryUnlock => if s.tx.Aborted? then Refused(s) else Answer(s.(locked := false), true)
    case Do(effect) =>
      if s.tx.Aborted? then Refused(s)
      else
        var result := effect(if s.tx.Active? then s.tx.work else s.committed);
        if result.None? then Refused(s)
        else if s.tx.Active? then Answer(s.(tx := Active(result.value, s.tx.saves)), true)
        else Answer(s.(committed := result.value), true)
  }

  /** A statement with its fault. A COMMIT or ROLLBACK that fails leaves the transaction undone. */
  function After(s: Session, stmt: Stmt, fault: Fault): Answer {
    match fault
    case Fine => Obeyed(s, stmt)
    case LostAnswer => Answer(Obeyed(s, stmt).session, false)
    case Fails => if stmt.Commit? || stmt.Rollback? then Answer(s.(tx := Idle), false) else Refused(s)
  }

  /** The fault of statement i from now; past the end of the schedule nothing fails. */
  function FaultAt(faults: seq<Fault>, i: nat): Fault {
    if i < |faults| then faults[i] else Fine
  }

  datatype Sent = Sent(stmt: Stmt, fault: Fault)

  predicate OfLocking(stmt: Stmt) {
    stmt.AdvisoryLock? || stmt.Begin? || stmt.AdvisoryUnlock?
  }

  class Connection {
    var session: Session
    /** The faults still to come, one a statement. */
    var faults: seq<Fault>
    /** The lock statements and BEGINs so far, each with its fault. */
    var locking: seq<Sent>

    constructor (committed: Db, schedule: seq<Fault>)
      ensures session == Session(committed, Idle, false) && faults == schedule && locking == []
    {
      session, faults, locking := Session(committed, Idle, false), schedule, [];
    }

    /** client.release and pool.end: the session ends, and with it its transaction and its lock. */
    method Close()
      modifies this
      ensures session == old(session).(tx := Idle, locked := false)
    {
      session := session.(tx := Idle, locked := false);
    }

    method Query(stmt: Stmt) returns (ok: bool)
      modifies this
      ensures Answer(session, ok) == After(old(session), stmt, FaultAt(old(faults), 0))
      ensures faults == if old(faults) == [] then [] else old(faults)[1..]
      ensures locking == old(locking) + (if OfLocking(stmt) then [Sent(stmt, FaultAt(old(faults), 0))] else [])
    {
      var answer := After(session, stmt, FaultAt(faults, 0));
      locking := locking + (if OfLocking(stmt) then [Sent(stmt, FaultAt(faults, 0))] else []);
      if faults != [] { faults := faults[1..]; }
      session := answer.session;
      return answer.ok;
    }
  }

  // ---------------------------------------------------------------- expectRejected

  datatype Probe = Threw | Rejected | Accepted

  /** The statements of expectRejected, each with its own fault. */
  function Probed(s: Session, name: string, effect: Effect, f: seq<Fault>): (Session, Probe) {
    var saved := After(s, Savepoint(name), FaultAt(f, 0));
    if !saved.ok then (saved.session, Threw)
    else
      var tried := After(saved.session, Do(effect), FaultAt(f, 1));
      if tried.ok then
        var released := After(tried.session, Release(name), FaultAt(f, 2));
        if released.ok then (released.session, Accepted)
        else CleanUp(released.session, name, FaultAt(f, 3), FaultAt(f, 4))
      else CleanUp(tried.session, name, FaultAt(f, 2), FaultAt(f, 3))
  }

  function CleanUp(s: Session, name: string, f: Fault, g: Fault): (Session, Probe) {
    var back := After(s, RollbackTo(name), f);
    if !back.ok then (back.session, Threw)
    else
      var released := After(back.session, Release(name), g);
      (released.session, if released.ok then Rejected else Threw)
  }

  /** Run a statement that should fail under a savepoint. */
  method ExpectRejected(c: Connection, name: string, effect: Effect) returns (r: Probe)
    modifies c
    ensures (c.session, r) == Probed(old(c.session), name, effect, old(c.faults))
    ensures c.locking == old(c.locking) && (old(c.faults) == [] ==> c.faults == [])
  {
    hide After;
    var ok := c.Query(Savepoint(name));
    if !ok { return Threw; }
    ok := c.Query(Do(effect));
    if ok {
      ok := c.Query(Release(name));
      if ok { return Accepted; }
    }
    ok := c.Query(RollbackTo(name));
    if !ok { return Threw; }
    ok := c.Query(Release(name));
    return if ok then Rejected else Threw;
  }

  lemma CleanUpRestores(s: Session, saves: seq<Save>, name: string, db: Db, f: Fault, g: Fault)
    requires !s.tx.Idle? && s.tx.saves == saves + [Save(name, db)]
    ensures var (n, r) := CleanUp(s, name, f, g);
            && n.committed == s.committed && n.locked == s.locked && !n.tx.Idle?
            && (r == Rejected <==> f == Fine && g == Fine) && (r == Rejected ==> n.tx == Active(db, saves))
            && r != Accepted
  {
    var grown := saves + [Save(name, db)];
    assert grown[..|saves|] == saves && grown[..|saves| + 1] == grown;
  }

  /** No savepoint of that name is set: the script uses each of its labels once. */
  predicate Unused(s: Session, name: string) {
    s.tx.Idle? || LastSave(s.tx.saves, name).None?
  }

  /** What its answer is worth. Unless the clean-up itself fails the transaction is usable afterwards,
      exactly as before when the statement counts as rejected, and with the statement's effect when it was
      accepted; nothing is ever committed. The statement counts as rejected when the database refused it,
      when its answer was lost, and also when it was accepted but its savepoint could not be released. */
  lemma ExpectRejectedMeans(s: Session, name: string, effect: Effect, f: seq<Fault>)
    ensures var (n, r) := Probed(s, name, effect, f);
            && n.committed == s.committed && n.locked == s.locked
            && (r == Rejected ==> s.tx.Active? && (Unused(s, name) || FaultAt(f, 2) != LostAnswer ==> n == s))
            && (r == Accepted ==> s.tx.Active? && effect(s.tx.work).Some? && n.tx == Active(effect(s.tx.work).value, s.tx.saves))
            && (r == Threw ==> n.tx.Idle? == s.tx.Idle?)
    ensures s.tx.Active? && FaultAt(f, 0) == Fine && (Unused(s, name) || FaultAt(f, 2) != LostAnswer) ==>
              var took := effect(s.tx.work).Some? && FaultAt(f, 1) == Fine;
              var r := Probed(s, name, effect, f).1;
              && (r == Accepted <==> took && FaultAt(f, 2) == Fine)
              && (r == Rejected <==>
                    if took then FaultAt(f, 2) == Fails && FaultAt(f, 3) == Fine && FaultAt(f, 4) == Fine
                    else FaultAt(f, 2) == Fine && FaultAt(f, 3) == Fine)
    ensures !(s.tx.Active? && FaultAt(f, 0) == Fine) ==> Probed(s, name, effect, f).1 == Threw
  {
    hide CleanUp;
    if s.tx.Active? && FaultAt(f, 0) == Fine {
      var saves, work := s.tx.saves, s.tx.work;
      var grown := saves + [Save(name, work)];
      assert grown[..|saves|] == saves;
      var tried := After(s.(tx := Active(work, grown)), Do(effect), FaultAt(f, 1));
      if tried.ok {
        var released := After(tried.session, Release(name), FaultAt(f, 2));
        if FaultAt(f, 2) == Fails {
          CleanUpRestores(released.session, saves, name, work, FaultAt(f, 3), FaultAt(f, 4));
        } else if FaultAt(f, 2) == LostAnswer {
          CleanUpKeeps(released.session, name, FaultAt(f, 3), FaultAt(f, 4));
        }
      } else {
        CleanUpRestores(tried.session, saves, name, work, FaultAt(f, 2), FaultAt(f, 3));
      }
    }
  }

  /** Cleaning up commits nothing, and fails when the savepoint is gone, as it is when only the answer to its
      release was lost. */
  lemma CleanUpKeeps(s: Session, name: string, f: Fault, g: Fault)
    requires !s.tx.Idle?
    ensures var (n, r) := CleanUp(s, name, f, g);
            && n.committed == s.committed && n.locked == s.locked && !n.tx.Idle? && r != Accepted
            && (LastSave(s.tx.saves, name).None? ==> r == Threw)
  {
  }

  // ---------------------------------------------------------------- the verifier

  const MIGRATION := "007_consumer_pack.sql"

  const EXPECTED_TABLES := [
    "consumer_providers", "consumer_provider_capabilities", "consumer_provider_health", "consumer_pause_flags",
    "consumer_intents", "consumer_quotes", "consumer_approvals", "consumer_funding_receipts",
    "consumer_provider_executions", "consumer_delivery_evidence", "consumer_treasury_accounts",
    "consumer_treasury_balances", "consumer_provider_limits", "consumer_payment_capabilities",
    "consumer_ledger_accounts", "consumer_ledger_groups", "consumer_ledger_entries", "consumer_outbox",
    "consumer_webhook_endpoints", "consumer_webhook_deliveries", "consumer_idempotency_records"]

  const EXPECTED_INDEXES := [
    "consumer_funding_tx_idx", "consumer_exec_idem_idx", "consumer_exec_attempt_idx", "consumer_intents_idem_idx",
    "consumer_capability_intent_idx", "consumer_ledger_group_once_idx", "consumer_outbox_seq_idx",
    "consumer_intents_state_idx", "consumer_intents_review_idx", "consumer_exec_ambiguous_idx",
    "consumer_outbox_pending_idx"]

  const EXPECTED_RULES := ["consumer_ledger_entries_no_update", "consumer_ledger_entries_no_delete"]

  const KEPT_TABLES := ["receipts", "policies", "ledger_entries", "escalations", "score_snapshots"]

  const SNAPSHOT_TABLES := ["schema_migrations", "receipts", "policies", "ledger_entries", "escalations"]

  /** The SQL the script brings along: the migration, and the write probes of the dry run. */
  datatype Script = Script(
    migrate: Effect, inserts: seq<Effect>, update: Effect, updateBlocked: Db -> bool,
    delete: Effect, deleteBlocked: Db -> bool, zeroAmount: Effect, twoTenants: Effect, sameTenant: Effect)

  function Look(d: Db): Option<Db> { Some(d) }

  /** The three reads of a snapshot, which need the tables they name. */
  function Snapshot(d: Db): Option<Db> {
    if forall t <- SNAPSHOT_TABLES :: t in d.tables then Some(d) else None
  }

  function CreateRegister(d: Db): Option<Db> {
    Some(d.(tables := d.tables + {"schema_migrations"}))
  }

  function Record(d: Db): Option<Db> {
    Some(d.(migrations := d.migrations + {MIGRATION}))
  }

  /** What applying the migration makes of a database. */
  function Migrated(script: Script, d: Db): Option<Db> {
    match script.migrate(CreateRegister(d).value)
    case None => None
    case Some(m) => Record(m)
  }

  predicate AllIn(names: seq<string>, have: set<string>) {
    forall n <- names :: n in have
  }

  function Missing(names: seq<string>, have: set<string>): nat {
    if names == [] then 0
    else Missing(names[..|names| - 1], have) + if names[|names| - 1] in have then 0 else 1
  }

  /** One line of output a name, one failure for each that is missing. */
  method CountMissing(names: seq<string>, have: set<string>) returns (missing: nat)
    ensures missing == 0 <==> AllIn(names, have)
    ensures missing == Missing(names, have)
  {
    missing := 0;
    for i := 0 to |names|
      invariant missing == Missing(names[..i], have)
      invariant missing == 0 <==> forall k | 0 <= k < i :: names[k] in have
    {
      assert names[..i + 1][..i] == names[..i];
      if names[i] !in have { missing := missing + 1; }
    }
    assert names[..|names|] == names;
  }

  /** The effects one after the other. */
  function Through(effects: seq<Effect>, d: Db): Option<Db> {
    if effects == [] then Some(d)
    else
      match Through(effects[..|effects| - 1], d)
      case None => None
      case Some(m) => effects[|effects| - 1](m)
  }

  /** What the rows put in, the update and the deletion make of a database, and how many of the last two
      were not silently discarded. */
  function LedgerTrial(script: Script, d: Db): Option<(Db, nat)> {
    match Through(script.inserts, d)
    case None => None
    case Some(i) =>
      match script.update(i)
      case None => None
      case Some(u) =>
        match script.delete(u)
        case None => None
        case Some(x) =>
          Some((x, (if script.updateBlocked(u) then 0 else 1) + (if script.deleteBlocked(x) then 0 else 1)))
  }

  /** A transaction in which a statement that ought to be refused was tried: it was and left no trace, or
      it was accepted, which is one failure. */
  predicate Tried(tx: Tx, saves: seq<Save>, d: Db, effect: Effect, failures: int) {
    || (failures == 0 && tx == Active(d, saves))
    || (failures == 1 && effect(d).Some? && tx == Active(effect(d).value, saves))
  }

  /** What a statement that ought to be refused leaves behind. */
  function Attempted(effect: Effect, d: Db): Db {
    match effect(d)
    case None => d
    case Some(n) => n
  }

  /** What all of a dry run's write probes make of a database, whatever they find; None when one that must go
      through is refused. */
  function ProbesEnd(script: Script, d: Db): Option<Db> {
    match LedgerTrial(script, d)
    case None => None
    case Some((x, _)) =>
      match script.twoTenants(Attempted(script.zeroAmount, x))
      case None => None
      case Some(y) => Some(Attempted(script.sameTenant, y))
  }

  /** The checks get to their end and can be counted. */
  predicate Completes(script: Script, d: Db, apply: bool) {
    if apply then Snapshot(d).Some?
    else
      match ProbesEnd(script, d)
      case None => false
      case Some(y) => Snapshot(y).Some?
  }

  /** A statement inside the transaction. */
  method Perform(c: Connection, effect: Effect) returns (ok: bool)
    requires c.session.tx.Active?
    modifies c
    ensures c.session.committed == old(c.session.committed) && c.session.locked == old(c.session.locked)
    ensures c.locking == old(c.locking) && !c.session.tx.Idle?
    ensures var result := effect(old(c.session.tx.work));
            && (ok ==> result.Some? && c.session.tx == Active(result.value, old(c.session.tx.saves)))
            && (old(c.faults) == [] ==> c.faults == [] && (ok <==> result.Some?))
  {
    ok := c.Query(Do(effect));
  }

  method TryProbe(c: Connection, name: string, effect: Effect) returns (accepted: Option<bool>)
    requires c.session.tx.Active? && c.session.tx.saves == []
    modifies c
    ensures c.session.committed == old(c.session.committed) && c.session.locked == old(c.session.locked)
    ensures c.locking == old(c.locking)
    ensures !c.session.tx.Idle?
    ensures accepted.Some? ==>
              Tried(c.session.tx, old(c.session.tx.saves), old(c.session.tx.work), effect, if accepted.value then 1 else 0)
    ensures old(c.faults) == [] ==>
              && c.faults == [] && accepted == Some(effect(old(c.session.tx.work)).Some?)
              && c.session.tx == Active(Attempted(effect, old(c.session.tx.work)), [])
  {
    hide Probed;
    ExpectRejectedMeans(c.session, name, effect, c.faults);
    var r := ExpectRejected(c, name, effect);
    return if r == Threw then None else Some(r == Accepted);
  }

  /** Step 5's write probes of the dry run: rows go in, an update and a deletion must change nothing, and
      a zero amount must be refused. What fails is counted; a statement that fails throws. */
  method LedgerProbes(c: Connection, script: Script) returns (failures: Option<nat>)
    requires c.session.tx.Active? && c.session.tx.saves == []
    modifies c
    ensures c.session.committed == old(c.session.committed) && c.session.locked == old(c.session.locked)
    ensures c.locking == old(c.locking)
    ensures !c.session.tx.Idle?
    ensures var t := LedgerTrial(script, old(c.session.tx.work));
            && (failures.Some? ==>
                  && t.Some?
                  && Tried(c.session.tx, old(c.session.tx.saves), t.value.0, script.zeroAmount, failures.value - t.value.1))
            && (old(c.faults) == [] ==>
                  && c.faults == [] && (failures.Some? <==> t.Some?)
                  && (failures.Some? ==>
                        && failures.value == t.value.1 + (if script.zeroAmount(t.value.0).Some? then 1 else 0)
                        && c.session.tx == Active(Attempted(script.zeroAmount, t.value.0), [])))
  {
    hide Tried, LedgerTrial, Probed, After;
    var n := MutationProbes(c, script);
    if n.None? { return None; }
    var accepted := TryProbe(c, "sp_zero_amount", script.zeroAmount);
    return if accepted.None? then None else Some(if accepted.value then n.value + 1 else n.value);
  }

  /** The part that expects silence: rows, an update, a deletion, each looked at afterwards. */
  method MutationProbes(c: Connection, script: Script) returns (failures: Option<nat>)
    requires c.session.tx.Active?
    modifies c
    ensures c.session.committed == old(c.session.committed) && c.session.locked == old(c.session.locked)
    ensures c.locking == old(c.locking) && !c.session.tx.Idle?
    ensures var t := LedgerTrial(script, old(c.session.tx.work));
            && (failures.Some? ==>
                  && c.session.tx.Active? && c.session.tx.saves == old(c.session.tx.saves)
                  && t == Some((c.session.tx.work, failures.value)))
            && (old(c.faults) == [] ==> c.faults == [] && (failures.Some? <==> t.Some?))
  {
    hide Through;
    var n := 0;
    var ok := InsertProbes(c, script.inserts);
    if !ok { return None; }
    ok := Perform(c, script.update);
    if !ok { return None; }
    ok := Perform(c, Look);
    if !ok { return None; }
    if !script.updateBlocked(c.session.tx.work) { n := n + 1; }
    ok := Perform(c, script.delete);
    if !ok { return None; }
    ok := Perform(c, Look);
    if !ok { return None; }
    if !script.deleteBlocked(c.session.tx.work) { n := n + 1; }
    return Some(n);
  }

  method InsertProbes(c: Connection, inserts: seq<Effect>) returns (ok: bool)
    requires c.session.tx.Active?
    modifies c
    ensures c.session.committed == old(c.session.committed) && c.session.locked == old(c.session.locked)
    ensures c.locking == old(c.locking)
    ensures !c.session.tx.Idle?
    ensures var i := Through(inserts, old(c.session.tx.work));
            && (ok ==> i.Some? && c.session.tx == Active(i.value, old(c.session.tx.saves)))
            && (old(c.faults) == [] ==> c.faults == [] && (ok <==> i.Some?))
  {
    hide LastSave;
    ghost var work := c.session.tx.work;
    for i := 0 to |inserts|
      invariant c.session.committed == old(c.session.committed) && c.session.locked == old(c.session.locked)
      invariant c.session.tx.Active? && c.session.tx.saves == old(c.session.tx.saves) && c.locking == old(c.locking)
      invariant Through(inserts[..i], work) == Some(c.session.tx.work)
      invariant old(c.faults) == [] ==> c.faults == []
    {
      assert inserts[..i + 1][..i] == inserts[..i];
      ok := Perform(c, inserts[i]);
      if !ok {
        if inserts[i](Through(inserts[..i], work).value).None? { ThroughStops(inserts, i + 1, work); }
        return;
      }
    }
    assert inserts[..|inserts|] == inserts;
    ok := true;
  }

  lemma {:induction false} ThroughStops(effects: seq<Effect>, k: nat, d: Db)
    requires k <= |effects| && Through(effects[..k], d).None?
    ensures Through(effects, d).None?
    decreases |effects|
  {
    if k == |effects| {
      assert effects[..k] == effects;
    } else {
      assert effects[..|effects| - 1][..k] == effects[..k];
      ThroughStops(effects[..|effects| - 1], k, d);
    }
  }

  /** Step 6's: two tenants may use one key, one tenant may not use it twice. */
  method TenantProbes(c: Connection, script: Script) returns (failures: Option<nat>)
    requires c.session.tx.Active? && c.session.tx.saves == []
    modifies c
    ensures c.session.committed == old(c.session.committed) && c.session.locked == old(c.session.locked)
    ensures c.locking == old(c.locking)
    ensures !c.session.tx.Idle?
    ensures var t := script.twoTenants(old(c.session.tx.work));
            && (failures.Some? ==>
                  && t.Some?
                  && Tried(c.session.tx, old(c.session.tx.saves), t.value, script.sameTenant, failures.value))
            && (old(c.faults) == [] ==>
                  && c.faults == [] && (failures.Some? <==> t.Some?)
                  && (failures.Some? ==>
                        && failures.value == (if script.sameTenant(t.value).Some? then 1 else 0)
                        && c.session.tx == Active(Attempted(script.sameTenant, t.value), [])))
  {
    hide Tried;
    var ok := Perform(c, script.twoTenants);
    if !ok { return None; }
    var accepted := TryProbe(c, "sp_same_tenant_key", script.sameTenant);
    return if accepted.None? then None else Some(if accepted.value then 1 else 0);
  }

  /** The data that was there before, as step 7 finds it. */
  predicate DataKept(counts: string, d: Db) {
    d.counts == counts && AllIn(KEPT_TABLES, d.tables)
  }

  predicate StructureComplete(d: Db) {
    AllIn(EXPECTED_TABLES, d.tables) && AllIn(EXPECTED_INDEXES, d.indexes) && AllIn(EXPECTED_RULES, d.rules)
  }

  /** The checks of the structure and of the data that was there before. */
  predicate Passes(counts: string, d: Db) {
    StructureComplete(d) && DataKept(counts, d)
  }

  /** What a dry run checks beyond that: an update and a deletion of a ledger entry are discarded, two
      tenants can share a key, and all of it leaves the data that was there before alone. */
  predicate Withstands(script: Script, counts: string, d: Db) {
    && StructureComplete(d)
    && (match LedgerTrial(script, d)
        case None => false
        case Some((x, failures)) =>
          && failures == 0
          && (match script.twoTenants(x)
              case None => false
              case Some(y) => DataKept(counts, y)))
  }

  /** And that a zero amount and a second use of a key by one tenant are refused. */
  predicate Refuses(script: Script, d: Db) {
    match LedgerTrial(script, d)
    case None => false
    case Some((x, _)) =>
      && script.zeroAmount(x).None?
      && (match script.twoTenants(x)
          case None => false
          case Some(y) => script.sameTenant(y).None? && Snapshot(y).Some?)
  }

  /** Steps 5 and 6 in a dry run, one after the other. */
  method WriteProbes(c: Connection, script: Script) returns (failures: Option<nat>)
    requires c.session.tx.Active? && c.session.tx.saves == []
    modifies c
    ensures c.session.committed == old(c.session.committed) && c.session.locked == old(c.session.locked)
    ensures c.locking == old(c.locking)
    ensures !c.session.tx.Idle? && (failures.Some? ==> c.session.tx.Active?)
    ensures var work := old(c.session.tx.work);
            && (failures == Some(0) ==>
                  && LedgerTrial(script, work).Some? && LedgerTrial(script, work).value.1 == 0
                  && script.twoTenants(LedgerTrial(script, work).value.0) == Some(c.session.tx.work))
            && (old(c.faults) == [] ==>
                  && c.faults == []
                  && (if failures.Some? then Some(c.session.tx.work) else None) == ProbesEnd(script, work)
                  && (failures == Some(0) <==>
                        match LedgerTrial(script, work)
                        case None => false
                        case Some((x, n)) =>
                          && n == 0 && script.zeroAmount(x).None? && script.twoTenants(x).Some?
                          && script.sameTenant(script.twoTenants(x).value).None?))
  {
    hide LedgerTrial;
    var n := LedgerProbes(c, script);
    if n.None? { return None; }
    var m := TenantProbes(c, script);
    if m.None? { return None; }
    return Some(n.value + m.value);
  }

  /** Steps 3 to 7, inside the transaction. In apply mode nothing is written. No failure means that every
      check passed, and without faults of the database exactly that. */
  method Checks(c: Connection, script: Script, apply: bool, counts: string) returns (failures: Option<nat>)
    requires c.session.tx.Active? && c.session.tx.saves == []
    modifies c
    ensures c.session.committed == old(c.session.committed) && c.session.locked == old(c.session.locked)
    ensures c.locking == old(c.locking)
    ensures !c.session.tx.Idle? && (failures.Some? ==> c.session.tx.Active?)
    ensures apply && failures.Some? ==>
              c.session == old(c.session) && (failures.value == 0 <==> Passes(counts, c.session.tx.work)) && Snapshot(c.session.tx.work).Some?
    ensures !apply && failures == Some(0) ==> Withstands(script, counts, old(c.session.tx.work))
    ensures old(c.faults) == [] ==>
              && c.faults == []
              && (failures.Some? <==> Completes(script, old(c.session.tx.work), apply))
              && (failures == Some(0) <==>
                    var d := old(c.session.tx.work);
                    if apply then Passes(counts, d) && Snapshot(d).Some?
                    else Withstands(script, counts, d) && Refuses(script, d))
  {
    hide AllIn, LastSave, LedgerTrial;
    var structure := MissingStructure(c);
    if structure.None? { return None; }
    var probes := Some(0);
    if !apply {
      probes := WriteProbes(c, script);
      if probes.None? { return None; }
    }
    var ok := Perform(c, Snapshot);
    if !ok { return None; }
    var changed := if c.session.tx.work.counts == counts then 0 else 1;
    var kept := CountMissing(KEPT_TABLES, c.session.tx.work.tables);
    return Some(structure.value + probes.value + changed + kept);
  }

  /** Steps 3 to 5's reads of the catalogue. */
  method MissingStructure(c: Connection) returns (missing: Option<nat>)
    requires c.session.tx.Active?
    modifies c
    ensures missing.Some? ==> c.session == old(c.session)
    ensures c.session.committed == old(c.session.committed) && c.session.locked == old(c.session.locked)
    ensures c.locking == old(c.locking) && !c.session.tx.Idle?
    ensures missing.Some? ==> (missing.value == 0 <==> StructureComplete(c.session.tx.work))
    ensures old(c.faults) == [] ==> missing.Some? && c.faults == []
  {
    hide AllIn, LastSave;
    var ok := Perform(c, Look);
    if !ok { return None; }
    var tables := CountMissing(EXPECTED_TABLES, c.session.tx.work.tables);
    ok := Perform(c, Look);
    if !ok { return None; }
    var indexes := CountMissing(EXPECTED_INDEXES, c.session.tx.work.indexes);
    ok := Perform(c, Look);
    if !ok { return None; }
    var rules := CountMissing(EXPECTED_RULES, c.session.tx.work.rules);
    return Some(tables + indexes + rules);
  }

  datatype Outcome = Applied | DryRunDone | AlreadyApplied | ChecksFailed | Aborts

  /** Step 2: the register, whether the migration is in it, the migration, and its record. Some(false)
      when an apply run finds it recorded. */
  method ApplyMigration(c: Connection, script: Script, apply: bool) returns (isNew: Option<bool>)
    requires c.session.tx == Active(c.session.committed, [])
    modifies c
    ensures c.session.committed == old(c.session.committed) && c.session.locked == old(c.session.locked)
    ensures c.locking == old(c.locking)
    ensures !c.session.tx.Idle?
    ensures var d := old(c.session.committed);
            && (isNew == Some(true) ==>
                  && (apply ==> MIGRATION !in d.migrations) && Migrated(script, d).Some?
                  && c.session.tx == Active(Migrated(script, d).value, []))
            && (isNew == Some(false) ==> apply && MIGRATION in d.migrations)
            && (old(c.faults) == [] ==>
                  && c.faults == []
                  && (isNew == Some(false) <==> apply && MIGRATION in d.migrations)
                  && (isNew == Some(true) <==> !(apply && MIGRATION in d.migrations) && Migrated(script, d).Some?))
  {
    hide LastSave;
    var ok := Perform(c, CreateRegister);
    if !ok { return None; }
    ok := Perform(c, Look);
    if !ok { return None; }
    if MIGRATION in c.session.tx.work.migrations && apply { return Some(false); }
    ok := Perform(c, script.migrate);
    if !ok { return None; }
    ok := Perform(c, Record);
    return if ok then Some(true) else None;
  }

  /** The migration is new to the database, and what it makes of it passes. */
  predicate WouldApply(script: Script, counts: string, d: Db) {
    && MIGRATION !in d.migrations
    && (match Migrated(script, d)
        case None => false
        case Some(m) => Passes(counts, m) && Snapshot(m).Some?)
  }

  /** The dry run's version: new or not, and with the probes, all or only those that must go through. */
  predicate WouldPass(script: Script, counts: string, d: Db, all: bool) {
    match Migrated(script, d)
    case None => false
    case Some(m) => Withstands(script, counts, m) && (all ==> Refuses(script, m))
  }

  /** An apply run that finds the migration recorded. */
  predicate Recorded(d: Db, apply: bool) {
    apply && MIGRATION in d.migrations
  }

  /** The migration goes through, every check can be made, and some check finds something. */
  predicate WouldFail(script: Script, counts: string, d: Db, apply: bool) {
    match Migrated(script, d)
    case None => false
    case Some(m) =>
      && Completes(script, m, apply)
      && !(if apply then Passes(counts, m) else Withstands(script, counts, m) && Refuses(script, m))
  }

  /** The body of the inner try, before the catch and the finally. */
  method Transaction(c: Connection, script: Script, apply: bool, counts: string) returns (o: Outcome)
    requires c.session.tx == Active(c.session.committed, [])
    modifies c
    ensures c.session.locked == old(c.session.locked) && c.locking == old(c.locking)
    ensures c.session.committed != old(c.session.committed) ==>
              && apply && (o == Applied || o == Aborts) && MIGRATION !in old(c.session.committed).migrations
              && Migrated(script, old(c.session.committed)) == Some(c.session.committed)
              && Passes(counts, c.session.committed) && c.session.tx.Idle?
    ensures o != Aborts ==> c.session.tx.Idle?
    ensures o == Applied ==>
              apply && Migrated(script, old(c.session.committed)) == Some(c.session.committed) && Passes(counts, c.session.committed)
    ensures o == DryRunDone ==> !apply && WouldPass(script, counts, old(c.session.committed), false)
    ensures old(c.faults) == [] ==>
              && c.faults == []
              && (o == Applied <==> apply && WouldApply(script, counts, old(c.session.committed)))
              && (o == DryRunDone <==> !apply && WouldPass(script, counts, old(c.session.committed), true))
              && (o == AlreadyApplied <==> Recorded(old(c.session.committed), apply))
              && (o == ChecksFailed <==>
                    !Recorded(old(c.session.committed), apply) && WouldFail(script, counts, old(c.session.committed), apply))
  {
    hide Passes, Snapshot, Migrated, LastSave;
    var isNew := ApplyMigration(c, script, apply);
    if isNew.None? { return Aborts; }
    var ok;
    if !isNew.value {
      ok := c.Query(Rollback);
      return if ok then AlreadyApplied else Aborts;
    }
    var failures := Checks(c, script, apply, counts);
    if failures.None? { return Aborts; }
    if failures.value > 0 {
      ok := c.Query(Rollback);
      return if ok then ChecksFailed else Aborts;
    }
    if apply {
      ok := c.Query(Commit);
      return if ok then Applied else Aborts;
    }
    ok := c.Query(Rollback);
    return if ok then DryRunDone else Aborts;
  }

  /** What may become of the committed database: nothing, or, in apply mode only, a migration that is new to
      it and passes every check. */
  predicate Kept(script: Script, apply: bool, before: Db, after: Db) {
    || after == before
    || (apply && MIGRATION !in before.migrations && Migrated(script, before) == Some(after) && Passes(before.counts, after))
  }

  /** The inner try with its catch and its finally: no transaction is left open, and the lock is given back
      unless the unlock is what failed. */
  method Guarded(c: Connection, script: Script, apply: bool) returns (o: Outcome)
    requires c.session.tx == Active(c.session.committed, []) && c.session.locked
    modifies c
    ensures c.session.tx == Idle
    ensures |c.locking| == |old(c.locking)| + 1 && c.locking[..|old(c.locking)|] == old(c.locking)
    ensures c.locking[|old(c.locking)|].stmt == AdvisoryUnlock
    ensures c.session.locked <==> c.locking[|old(c.locking)|].fault == Fails
    ensures o != Aborts ==> !c.session.locked
    ensures Kept(script, apply, old(c.session.committed), c.session.committed)
    ensures o == ChecksFailed || o == AlreadyApplied || o == DryRunDone ==> c.session.committed == old(c.session.committed)
    ensures o == Applied ==>
              apply && Migrated(script, old(c.session.committed)) == Some(c.session.committed)
              && Passes(old(c.session.committed).counts, c.session.committed)
    ensures o == DryRunDone ==> !apply && WouldPass(script, old(c.session.committed).counts, old(c.session.committed), false)
    ensures old(c.faults) == [] ==>
              var d := old(c.session.committed);
              && c.faults == []
              && (o == Applied <==> apply && WouldApply(script, d.counts, d))
              && (o == DryRunDone <==> !apply && WouldPass(script, d.counts, d, true))
              && (o == AlreadyApplied <==> Recorded(d, apply))
              && (o == ChecksFailed <==> !Recorded(d, apply) && WouldFail(script, d.counts, d, apply))
  {
    hide Passes, Snapshot, Migrated, WouldApply, WouldPass, WouldFail;
    o := Transaction(c, script, apply, c.session.committed.counts);
    var ok;
    if o == Aborts {
      ok := c.Query(Rollback);
    }
    ok := c.Query(AdvisoryUnlock);
    if !ok { o := Aborts; }
  }

  /** How far the script got with its lock, and what became of each statement: the lock once the first
      snapshot was read, BEGIN once the lock was granted, the unlock once BEGIN was. */
  predicate Talk(said: seq<Sent>, d: Db, faults: seq<Fault>) {
    && |said| <= 3
    && (said == [] <==> !(Snapshot(d).Some? && FaultAt(faults, 0) == Fine))
    && (said != [] ==> said[0] == Sent(AdvisoryLock, FaultAt(faults, 1)))
    && (|said| > 1 <==> said != [] && FaultAt(faults, 1) == Fine)
    && (|said| > 1 ==> said[1] == Sent(Begin, FaultAt(faults, 2)))
    && (|said| > 2 <==> |said| > 1 && FaultAt(faults, 2) == Fine)
    && (|said| > 2 ==> said[2].stmt == AdvisoryUnlock)
  }

  /** The lock is still held: it was taken and the answer lost, or it was granted and BEGIN was refused,
      which stands outside the inner try, or it was granted and the unlock failed. */
  predicate LeftLocked(said: seq<Sent>) {
    && said != []
    && (|| said[0].fault == LostAnswer
        || (|said| > 1 && said[1].fault != Fine)
        || (|said| > 2 && said[2].fault == Fails))
  }

  /** A transaction is still open: BEGIN was carried out and its answer lost. */
  predicate LeftOpen(said: seq<Sent>) {
    |said| > 1 && said[1].fault == LostAnswer
  }

  /** main up to its own finally. On every path, whatever fails: a dry run leaves the committed database as
      it was; an apply run changes it only into the migrated database, only if that passes every check and
      only if the migration was not recorded before. The session keeps the lock, and keeps a transaction,
      exactly in the cases above. A dry run that ends well has seen every probe that must go through do so.
      Without failures either mode ends well exactly when its checks hold. */
  method Verify(c: Connection, script: Script, apply: bool) returns (o: Outcome)
    requires c.session.tx == Idle && !c.session.locked && c.locking == []
    modifies c
    ensures Talk(c.locking, old(c.session.committed), old(c.faults))
    ensures c.session.locked <==> LeftLocked(c.locking)
    ensures c.session.tx == if LeftOpen(c.locking) then Active(old(c.session.committed), []) else Idle
    ensures o != Aborts ==> !c.session.locked && c.session.tx == Idle
    ensures Kept(script, apply, old(c.session.committed), c.session.committed)
    ensures |c.locking| < 3 ==> c.session.committed == old(c.session.committed)
    ensures o == ChecksFailed || o == AlreadyApplied || o == DryRunDone ==> c.session.committed == old(c.session.committed)
    ensures o == Applied ==> apply && Migrated(script, old(c.session.committed)) == Some(c.session.committed)
    ensures o == DryRunDone ==> !apply && WouldPass(script, old(c.session.committed).counts, old(c.session.committed), false)
    ensures old(c.faults) == [] ==>
              var d := old(c.session.committed);
              && (o == Applied <==> apply && Snapshot(d).Some? && WouldApply(script, d.counts, d))
              && (o == DryRunDone <==> !apply && Snapshot(d).Some? && WouldPass(script, d.counts, d, true))
              && (o == AlreadyApplied <==> Snapshot(d).Some? && Recorded(d, apply))
              && (o == ChecksFailed <==> Snapshot(d).Some? && !Recorded(d, apply) && WouldFail(script, d.counts, d, apply))
  {
    hide Passes, Migrated, WouldApply, WouldPass, WouldFail, Snapshot;
    ghost var d := c.session.committed;
    var ok := ReadSnapshot(c);
    if !ok { return Aborts; }
    ok := c.Query(AdvisoryLock);
    if !ok { return Aborts; }
    ok := c.Query(Begin);
    if !ok { return Aborts; }
    o := Guarded(c, script, apply);
    if o == Applied || o == DryRunDone {
      if WouldApply(script, d.counts, d) { AppliedIsReadable(script, d.counts, d); }
      ok := ReadSnapshot(c);
      if !ok { return Aborts; }
    }
  }

  /** snapshot, outside any transaction. */
  method ReadSnapshot(c: Connection) returns (ok: bool)
    requires c.session.tx == Idle
    modifies c
    ensures c.session == old(c.session) && c.locking == old(c.locking)
    ensures c.faults == if old(c.faults) == [] then [] else old(c.faults)[1..]
    ensures ok <==> Snapshot(c.session.committed).Some? && FaultAt(old(c.faults), 0) == Fine
  {
    SnapshotReads(c.session.committed);
    hide Snapshot;
    ok := c.Query(Do(Snapshot));
  }

  lemma AppliedIsReadable(script: Script, counts: string, d: Db)
    requires WouldApply(script, counts, d)
    ensures Snapshot(Migrated(script, d).value).Some?
  {
  }

  /** The lock is not always given back by the script: a BEGIN that fails leaves it with the session. */
  method FailedBeginKeepsLock(d: Db, script: Script, apply: bool) returns (c: Connection, o: Outcome)
    requires Snapshot(d).Some?
    ensures o == Aborts && c.session == Session(d, Idle, true)
  {
    hide Snapshot;
    c := new Connection(d, [Fine, Fine, Fails]);
    o := Verify(c, script, apply);
  }

  /** The whole of main: its finally closes the connection, so what the session still held is gone in the
      end, on every path, and the committed database is as Verify left it. */
  method RunToTheEnd(d: Db, schedule: seq<Fault>, script: Script, apply: bool) returns (c: Connection, o: Outcome)
    ensures c.session.tx == Idle && !c.session.locked
    ensures Kept(script, apply, d, c.session.committed)
    ensures NoProbesOfItsOwn(script) ==> c.session.committed.probes == d.probes
  {
    hide Talk, WouldApply, WouldPass;
    c := new Connection(d, schedule);
    o := Verify(c, script, apply);
    KeptHasNoProbes(script, apply, d, c.session.committed);
    c.Close();
  }

  lemma KeptHasNoProbes(script: Script, apply: bool, d: Db, n: Db)
    ensures NoProbesOfItsOwn(script) && Kept(script, apply, d, n) ==> n.probes == d.probes
  {
  }

  /** The migration itself inserts none of the verifier's probe rows. */
  ghost predicate NoProbesOfItsOwn(script: Script) {
    forall d :: script.migrate(d).Some? ==> script.migrate(d).value.probes == d.probes
  }

  lemma SnapshotReads(d: Db)
    ensures Snapshot(d).Some? ==> Snapshot(d).value == d
  {
  }
}
