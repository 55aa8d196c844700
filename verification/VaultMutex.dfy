/** What the reentrancy guard of the vault is worth: with it, one deposit or payment at a time, whatever the
    token does in between. */
module VaultMutex {
  import opened Wrappers
  import opened Vault

  predicate Guarded(op: Op) {
    op.Deposit? || op.Spend? || op.SpendFallback?
  }

  /** With the guard, a deposit or payment that goes through leaves exactly its own mark on nonces and budget,
      however deep its token calls back; and the guard is free again. */
  lemma OneAtATime(k: Config, s: State, c: Call, time: nat)
    requires Sane(k) && k.guarded && Guarded(c.op) && Exec(k, s, c, time).error == None
    ensures var n := Exec(k, s, c, time).state;
            && !s.entered && !n.entered
            && n.nonceUsed == s.nonceUsed + (if c.op.Spend? then {c.op.nonce} else {})
            && n.currentEpoch == (if c.op.Deposit? then s.currentEpoch else EpochOf(k, time))
            && n.epochSpent == (if c.op.Deposit? then s.epochSpent
                                else if EpochOf(k, time) > s.currentEpoch then c.op.amount else s.epochSpent + c.op.amount)
  {
    hide EpochOf, Exec, ExecAll;
    NothingRejected(k, s, c, time);
    var p := Begin(k, s, c.sender, c.op, time).plan;
    MovesThrough(k, s, c, time, p);
    MutexFreezesAll(k, p.state, c.before, time);
    var moved := Moved(k, ExecAll(k, p.state, c.before, time), p).value;
    MutexFreezesAll(k, moved, c.after, time);
  }

  lemma NothingRejected(k: Config, s: State, c: Call, time: nat)
    requires Sane(k) && Exec(k, s, c, time).error == None
    ensures !Begin(k, s, c.sender, c.op, time).Reject?
  {
    hide Begin, Moved, ExecAll;
  }

  lemma MovesThrough(k: Config, s: State, c: Call, time: nat, p: Plan)
    requires Sane(k) && Exec(k, s, c, time).error == None && Begin(k, s, c.sender, c.op, time) == Move(p)
    ensures var moved := Moved(k, ExecAll(k, p.state, c.before, time), p);
            && moved.Some?
            && Exec(k, s, c, time).state == Finish(k, ExecAll(k, moved.value, c.after, time), p)
  {
    hide Begin, Moved, ExecAll, Finish;
  }

  /** While it runs, the token's own deposits and payments are refused. */
  lemma NestedAreRefused(k: Config, s: State, c: Call, inner: Call, time: nat)
    requires Sane(k) && k.guarded && Guarded(c.op) && Guarded(inner.op)
    requires Begin(k, s, c.sender, c.op, time).Move?
    ensures Exec(k, Begin(k, s, c.sender, c.op, time).plan.state, inner, time).error == Some(Reentrancy)
  {
    hide EpochOf, Exec;
    MutexFreezesSpending(k, Begin(k, s, c.sender, c.op, time).plan.state, inner, time);
  }
}
