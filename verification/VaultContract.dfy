/** UntchVault as a contract: storage changed by each call, tokens that call back in mid-transfer, and a
    revert that puts everything back. Every call does exactly what the model in Vault says. The mutex is
    taken with the other effects: before them nothing is called, and a refusal would undo it. */
module VaultContract {
  import opened Wrappers
  import opened Vault

  class UntchVault {
    const k: Config
    var owner: Address
    var pendingOwner: Address
    var oracle: Address
    var paused: bool
    var nonceUsed: set<nat>
    var fallbackPerTxMax: map<Address, nat>
    var currentEpoch: nat
    var epochSpent: nat
    var entered: bool
    /** What the tokens hold for the vault, and the events emitted. */
    var balances: map<Address, nat>
    var log: seq<Entry>

    function View(): State
      reads this
    {
      State(owner, pendingOwner, oracle, paused, nonceUsed, fallbackPerTxMax,
            currentEpoch, epochSpent, entered, balances, log)
    }

    constructor (config: Config, initialOwner: Address, initialOracle: Address, held: map<Address, nat>)
      ensures k == config && Constructed(View())
      ensures View() == State(initialOwner, NOBODY, initialOracle, false, {}, map[], 0, 0, false, held, [])
    {
      k := config;
      owner, pendingOwner, oracle, paused := initialOwner, NOBODY, initialOracle, false;
      nonceUsed, fallbackPerTxMax, currentEpoch, epochSpent, entered := {}, map[], 0, 0, false;
      balances, log := held, [];
    }

    method Restore(s: State)
      modifies this
      ensures View() == s
    {
      owner, pendingOwner, oracle, paused := s.owner, s.pendingOwner, s.oracle, s.paused;
      nonceUsed, fallbackPerTxMax, currentEpoch, epochSpent := s.nonceUsed, s.fallbackMax, s.currentEpoch, s.epochSpent;
      entered, balances, log := s.entered, s.balances, s.log;
    }

    /** The calls a token makes; a refused one does not stop it. */
    method InvokeAll(calls: seq<Call>, time: nat)
      requires Sane(k)
      modifies this
      ensures View() == ExecAll(k, old(View()), calls, time)
      decreases calls, 0
    {
      hide Exec;
      if calls != [] {
        var _ := Invoke(calls[0], time);
        InvokeAll(calls[1..], time);
      }
    }

    /** safeTransfer and safeTransferFrom: the token calls back, moves the balance, calls back again. */
    method CallToken(c: Call, time: nat, p: Plan) returns (ok: bool)
      requires Sane(k)
      modifies this
      ensures var ready := ExecAll(k, old(View()), c.before, time);
              match Moved(k, ready, p)
              case None => !ok
              case Some(moved) => ok == c.tokenOk && (ok ==> View() == ExecAll(k, moved, c.after, time))
      decreases c, 0
    {
      hide ExecAll;
      InvokeAll(c.before, time);
      var had := At(balances, p.token);
      if p.outward && had < p.amount { return false; }
      if p.party != k.self {
        balances := balances[p.token := if p.outward then had - p.amount else had + p.amount];
      }
      InvokeAll(c.after, time);
      return c.tokenOk;
    }

    method Deposit(c: Call, time: nat) returns (error: Option<Error>)
      requires Sane(k) && c.op.Deposit?
      modifies this
      ensures Outcome(View(), error) == Exec(k, old(View()), c, time)
      decreases c, 1
    {
      hide ExecAll, EpochOf, Moved;
      var saved, amount, token := View(), c.op.amount, c.op.token;
      if entered { return Some(Reentrancy); }
      if token !in k.tokens { return Some(TokenNotAllowed); }
      if amount == 0 { return Some(ZeroValue); }
      entered := k.guarded;
      var event := Deposited(token, c.sender, amount);
      var ok := CallToken(c, time, Plan(View(), token, false, c.sender, amount, event, true));
      if !ok { Restore(saved); return Some(TransferFailed); }
      log := log + [event];
      if k.guarded { entered := false; }
      return None;
    }

    method Spend(c: Call, time: nat) returns (error: Option<Error>)
      requires Sane(k) && c.op.Spend?
      modifies this
      ensures Outcome(View(), error) == Exec(k, old(View()), c, time)
      decreases c, 1
    {
      hide ExecAll, EpochOf, Moved;
      var saved, amount, token := View(), c.op.amount, c.op.token;
      if entered { return Some(Reentrancy); }
      if paused { return Some(VaultPaused); }
      if time > c.op.expiry { return Some(SigExpired); }
      if c.op.nonce in nonceUsed { return Some(NonceReplay); }
      if c.op.signer.None? { return Some(BadSignature); }
      if c.op.signer.value != oracle { return Some(BadOracle); }
      if amount > k.perTxCap { return Some(CapExceeded); }
      var epoch := EpochOf(k, time);
      var wouldBe := (if epoch > currentEpoch then 0 else epochSpent) + amount;
      if wouldBe > k.epochBudget { return Some(BudgetExceeded); }
      if token !in k.tokens { return Some(TokenNotAllowed); }
      entered := k.guarded;
      nonceUsed := nonceUsed + {c.op.nonce};
      currentEpoch := epoch;
      epochSpent := wouldBe;
      if k.requireAnchoredIntent && c.op.usable != Some(true) { Restore(saved); return Some(IntentNotApproved); }
      var event := Spent(c.op.recipient, token, c.op.intent, amount, c.op.nonce, false, time);
      var ok := CallToken(c, time, Plan(View(), token, true, c.op.recipient, amount, event, true));
      if !ok { Restore(saved); return Some(TransferFailed); }
      log := log + [event];
      if k.guarded { entered := false; }
      return None;
    }

    method SpendFallback(c: Call, time: nat) returns (error: Option<Error>)
      requires Sane(k) && c.op.SpendFallback?
      modifies this
      ensures Outcome(View(), error) == Exec(k, old(View()), c, time)
      decreases c, 1
    {
      hide ExecAll, EpochOf, Moved;
      var saved, amount, token, recipient := View(), c.op.amount, c.op.token, c.op.recipient;
      if entered { return Some(Reentrancy); }
      if paused { return Some(VaultPaused); }
      if c.sender != owner { return Some(NotOwner); }
      var cap := At(fallbackPerTxMax, recipient);
      if cap == 0 { return Some(FallbackRecipientNotAllowed); }
      if amount == 0 { return Some(ZeroValue); }
      if amount > cap { return Some(CapExceeded); }
      if token !in k.tokens { return Some(TokenNotAllowed); }
      var epoch := EpochOf(k, time);
      var wouldBe := (if epoch > currentEpoch then 0 else epochSpent) + amount;
      if wouldBe > k.epochBudget { return Some(BudgetExceeded); }
      entered := k.guarded;
      currentEpoch := epoch;
      epochSpent := wouldBe;
      var event := Spent(recipient, token, 0, amount, 0, true, time);
      var ok := CallToken(c, time, Plan(View(), token, true, recipient, amount, event, true));
      if !ok { Restore(saved); return Some(TransferFailed); }
      log := log + [event];
      if k.guarded { entered := false; }
      return None;
    }

    method OwnerWithdraw(c: Call, time: nat) returns (error: Option<Error>)
      requires Sane(k) && c.op.OwnerWithdraw?
      modifies this
      ensures Outcome(View(), error) == Exec(k, old(View()), c, time)
      decreases c, 1
    {
      hide ExecAll, EpochOf, Moved;
      var saved := View();
      if c.sender != owner { return Some(NotOwner); }
      if c.op.to == NOBODY { return Some(ZeroAddress); }
      var event := Withdrawn(c.op.token, c.op.to, c.op.amount);
      var ok := CallToken(c, time, Plan(View(), c.op.token, true, c.op.to, c.op.amount, event, false));
      if !ok { Restore(saved); return Some(TransferFailed); }
      log := log + [event];
      return None;
    }

    /** The calls that only change settings, and a gift, which does not call the vault at all. */
    method Govern(c: Call, time: nat) returns (error: Option<Error>)
      requires Sane(k)
      requires !c.op.Deposit? && !c.op.Spend? && !c.op.SpendFallback? && !c.op.OwnerWithdraw?
      modifies this
      ensures Outcome(View(), error) == Exec(k, old(View()), c, time)
    {
      hide ExecAll, EpochOf, Moved;
      var op := c.op;
      if op.AcceptOwnership? {
        if c.sender != pendingOwner { return Some(NotPendingOwner); }
        owner, pendingOwner := pendingOwner, NOBODY;
      } else if op.Gift? {
        balances := balances[op.token := At(balances, op.token) + op.amount];
        log := log + [Gifted(op.token, op.amount)];
      } else if c.sender != owner {
        return Some(NotOwner);
      } else if op.TransferOwnership? {
        pendingOwner := op.newOwner;
      } else if op.SetOracle? {
        if op.newOracle == NOBODY { return Some(ZeroAddress); }
        oracle := op.newOracle;
      } else if op.SetFallbackAllowlist? {
        if op.recipient == NOBODY { return Some(ZeroAddress); }
        fallbackPerTxMax := fallbackPerTxMax[op.recipient := op.perTxMax];
      } else {
        paused := op.Pause?;
      }
      return None;
    }

    method Invoke(c: Call, time: nat) returns (error: Option<Error>)
      requires Sane(k)
      modifies this
      ensures Outcome(View(), error) == Exec(k, old(View()), c, time)
      decreases c, 2
    {
      hide Exec;
      if c.op.Deposit? {
        error := Deposit(c, time);
      } else if c.op.Spend? {
        error := Spend(c, time);
      } else if c.op.SpendFallback? {
        error := SpendFallback(c, time);
      } else if c.op.OwnerWithdraw? {
        error := OwnerWithdraw(c, time);
      } else {
        error := Govern(c, time);
      }
    }

    /** A vault's life: calls in order of time, any of them nesting others. */
    method Serve(history: seq<Sent>)
      requires Sane(k) && Constructed(View()) && InOrder(history)
      modifies this
      ensures View() == Run(k, old(View()), history)
      ensures Books(k, old(View()), View())
    {
      hide Exec, Books, Constructed;
      ghost var start := View();
      for i := 0 to |history|
        invariant View() == Run(k, start, history[..i])
      {
        var _ := Invoke(history[i].call, history[i].time);
        assert history[..i + 1][..i] == history[..i];
      }
      assert history[..|history|] == history;
      BooksBalance(k, start, history);
    }
  }
}
