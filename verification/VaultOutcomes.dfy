/** What a single call to UntchVault comes to: the first guard that fails, or the new state, written out against
    the guard table of contracts/README.md and the events of the past. */
module VaultOutcomes {
  import opened Wrappers
  import opened Vault

  /** An epoch is the stretch of epochLen seconds from its start on. */
  lemma EpochSpan(k: Config, time: nat)
    requires Sane(k) && time >= k.epochGenesis
    ensures var e := EpochOf(k, time);
            k.epochGenesis + e * k.epochLen <= time < k.epochGenesis + (e + 1) * k.epochLen
  {
    var passed := time - k.epochGenesis;
    assert passed == passed / k.epochLen * k.epochLen + passed % k.epochLen;
  }

  // ---------------------------------------------------------------- the first guard that fails

  datatype Check = Check(holds: bool, otherwise: Error)

  function FirstFailed(checks: seq<Check>): Option<Error> {
    if checks == [] then None
    else if !checks[0].holds then Some(checks[0].otherwise)
    else FirstFailed(checks[1..])
  }

  lemma {:induction false} FirstFailedMeans(checks: seq<Check>)
    ensures FirstFailed(checks) == None <==> forall c <- checks :: c.holds
    ensures forall i | 0 <= i < |checks| && !checks[i].holds && (forall j | 0 <= j < i :: checks[j].holds) ::
              FirstFailed(checks) == Some(checks[i].otherwise)
  {
    if checks != [] {
      FirstFailedMeans(checks[1..]);
      assert checks == [checks[0]] + checks[1..];
      assert forall i | 0 < i < |checks| :: checks[i] == checks[1..][i - 1];
      forall i | 0 < i < |checks| && !checks[i].holds && (forall j | 0 <= j < i :: checks[j].holds)
        ensures FirstFailed(checks) == Some(checks[i].otherwise)
      {
        assert forall j | 0 <= j < i - 1 :: checks[1..][j] == checks[j + 1];
      }
    }
  }

  /** A call with nothing nested in it, by a token that does what it is asked. */
  function Alone(sender: Address, op: Op): Call {
    Call(sender, op, [], [], true)
  }

  /** What counts against the budget: nothing in a new epoch. */
  function SpentSoFar(k: Config, s: State, time: nat): nat
    requires Sane(k)
  {
    if EpochOf(k, time) > s.currentEpoch then 0 else s.epochSpent
  }

  /** The guards of a call in the order in which they are reported, the balance last. */
  function Guards(k: Config, s: State, sender: Address, op: Op, time: nat): seq<Check>
    requires Sane(k)
  {
    match op
    case Deposit(token, amount) =>
      [Check(!s.entered, Reentrancy), Check(token in k.tokens, TokenNotAllowed), Check(amount > 0, ZeroValue)]
    case Spend(_, amount, token, _, signer, nonce, expiry, usable) =>
      [Check(!s.entered, Reentrancy), Check(!s.paused, VaultPaused), Check(time <= expiry, SigExpired),
       Check(nonce !in s.nonceUsed, NonceReplay), Check(signer.Some?, BadSignature), Check(signer == Some(s.oracle), BadOracle),
       Check(amount <= k.perTxCap, CapExceeded), Check(SpentSoFar(k, s, time) + amount <= k.epochBudget, BudgetExceeded),
       Check(token in k.tokens, TokenNotAllowed),
       Check(k.requireAnchoredIntent ==> usable == Some(true), IntentNotApproved),
       Check(amount <= At(s.balances, token), TransferFailed)]
    case SpendFallback(recipient, amount, token) =>
      [Check(!s.entered, Reentrancy), Check(!s.paused, VaultPaused), Check(sender == s.owner, NotOwner),
       Check(At(s.fallbackMax, recipient) > 0, FallbackRecipientNotAllowed), Check(amount > 0, ZeroValue),
       Check(amount <= At(s.fallbackMax, recipient), CapExceeded), Check(token in k.tokens, TokenNotAllowed),
       Check(SpentSoFar(k, s, time) + amount <= k.epochBudget, BudgetExceeded),
       Check(amount <= At(s.balances, token), TransferFailed)]
    case OwnerWithdraw(token, to, amount) =>
      [Check(sender == s.owner, NotOwner), Check(to != NOBODY, ZeroAddress),
       Check(amount <= At(s.balances, token), TransferFailed)]
    case AcceptOwnership => [Check(sender == s.pendingOwner, NotPendingOwner)]
    case SetOracle(newOracle) => [Check(sender == s.owner, NotOwner), Check(newOracle != NOBODY, ZeroAddress)]
    case SetFallbackAllowlist(recipient, _) => [Check(sender == s.owner, NotOwner), Check(recipient != NOBODY, ZeroAddress)]
    case Gift(_, _) => []
    case _ => [Check(sender == s.owner, NotOwner)]
  }

  /** A call is refused for the first of its guards that fails, and goes through exactly when none does. */
  lemma RefusedForTheFirstReason(k: Config, s: State, sender: Address, op: Op, time: nat)
    requires Sane(k)
    ensures Exec(k, s, Alone(sender, op), time).error == FirstFailed(Guards(k, s, sender, op, time))
  {
    hide EpochOf, FirstFailed;
    NothingNested(k, time);
    match op
    case Deposit(_, _) => DepositRefused(k, s, sender, op, time);
    case Spend(_, _, _, _, _, _, _, _) => SpendRefused(k, s, sender, op, time);
    case SpendFallback(_, _, _) => FallbackRefused(k, s, sender, op, time);
    case OwnerWithdraw(_, _, _) => WithdrawRefused(k, s, sender, op, time);
    case _ => SettingRefused(k, s, sender, op, time);
  }

  lemma NothingNested(k: Config, time: nat)
    requires Sane(k)
    ensures forall n: State :: ExecAll(k, n, [], time) == n
  {
  }

  /** Refused for the n-th reason, or not at all. */
  lemma FirstAt(checks: seq<Check>, n: nat)
    requires n <= |checks| && forall j | 0 <= j < n :: checks[j].holds
    ensures n < |checks| && !checks[n].holds ==> FirstFailed(checks) == Some(checks[n].otherwise)
    ensures n == |checks| ==> FirstFailed(checks) == None
  {
    FirstFailedMeans(checks);
  }

  /** A call alone is refused by its guards, or by its token for want of balance. */
  lemma AloneError(k: Config, s: State, sender: Address, op: Op, time: nat)
    requires Sane(k)
    ensures Exec(k, s, Alone(sender, op), time).error ==
            match Begin(k, s, sender, op, time)
            case Reject(e) => Some(e)
            case Settle(_) => None
            case Move(p) => if Moved(k, p.state, p).None? then Some(TransferFailed) else None
  {
    hide Begin, Moved;
    NothingNested(k, time);
  }

  lemma DepositRefused(k: Config, s: State, sender: Address, op: Op, time: nat)
    requires Sane(k) && op.Deposit?
    ensures Exec(k, s, Alone(sender, op), time).error == FirstFailed(Guards(k, s, sender, op, time))
  {
    hide EpochOf;
    NothingNested(k, time);
    FirstFailedMeans(Guards(k, s, sender, op, time));
    hide FirstFailed;
  }

  lemma SpendRefused(k: Config, s: State, sender: Address, op: Op, time: nat)
    requires Sane(k) && op.Spend?
    ensures Exec(k, s, Alone(sender, op), time).error == FirstFailed(Guards(k, s, sender, op, time))
  {
    hide EpochOf, Exec, FirstFailed;
    AloneError(k, s, sender, op, time);
    var gs := Guards(k, s, sender, op, time);
    if !gs[0].holds { FirstAt(gs, 0); }
    else if !gs[1].holds { FirstAt(gs, 1); }
    else if !gs[2].holds { FirstAt(gs, 2); }
    else if !gs[3].holds { FirstAt(gs, 3); }
    else if !gs[4].holds { FirstAt(gs, 4); }
    else if !gs[5].holds { FirstAt(gs, 5); }
    else if !gs[6].holds { FirstAt(gs, 6); }
    else if !gs[7].holds { FirstAt(gs, 7); }
    else if !gs[8].holds { FirstAt(gs, 8); }
    else if !gs[9].holds { FirstAt(gs, 9); }
    else if !gs[10].holds { FirstAt(gs, 10); }
    else { FirstAt(gs, 11); }
  }

  lemma FallbackRefused(k: Config, s: State, sender: Address, op: Op, time: nat)
    requires Sane(k) && op.SpendFallback?
    ensures Exec(k, s, Alone(sender, op), time).error == FirstFailed(Guards(k, s, sender, op, time))
  {
    hide EpochOf, Exec, FirstFailed;
    AloneError(k, s, sender, op, time);
    var gs := Guards(k, s, sender, op, time);
    if !gs[0].holds { FirstAt(gs, 0); }
    else if !gs[1].holds { FirstAt(gs, 1); }
    else if !gs[2].holds { FirstAt(gs, 2); }
    else if !gs[3].holds { FirstAt(gs, 3); }
    else if !gs[4].holds { FirstAt(gs, 4); }
    else if !gs[5].holds { FirstAt(gs, 5); }
    else if !gs[6].holds { FirstAt(gs, 6); }
    else if !gs[7].holds { FirstAt(gs, 7); }
    else if !gs[8].holds { FirstAt(gs, 8); }
    else { FirstAt(gs, 9); }
  }

  lemma WithdrawRefused(k: Config, s: State, sender: Address, op: Op, time: nat)
    requires Sane(k) && op.OwnerWithdraw?
    ensures Exec(k, s, Alone(sender, op), time).error == FirstFailed(Guards(k, s, sender, op, time))
  {
    hide EpochOf;
    NothingNested(k, time);
    FirstFailedMeans(Guards(k, s, sender, op, time));
    hide FirstFailed;
  }

  lemma SettingRefused(k: Config, s: State, sender: Address, op: Op, time: nat)
    requires Sane(k) && !op.Deposit? && !op.Spend? && !op.SpendFallback? && !op.OwnerWithdraw?
    ensures Exec(k, s, Alone(sender, op), time).error == FirstFailed(Guards(k, s, sender, op, time))
  {
    hide EpochOf;
    FirstFailedMeans(Guards(k, s, sender, op, time));
    hide FirstFailed;
  }

  // ---------------------------------------------------------------- what a call that goes through leaves

  /** The balance of a token after a payment from or to the vault by somebody else, or by itself. */
  function Paid(k: Config, s: State, token: Address, to: Address, amount: nat): map<Address, nat>
    requires amount <= At(s.balances, token)
  {
    if to == k.self then s.balances else s.balances[token := At(s.balances, token) - amount]
  }

  /** The state after a call that went through. */
  function Left(k: Config, s: State, sender: Address, op: Op, time: nat): State
    requires Sane(k) && forall c <- Guards(k, s, sender, op, time) :: c.holds
  {
    match op
    case Deposit(token, amount) =>
      s.(balances := if sender == k.self then s.balances else s.balances[token := At(s.balances, token) + amount],
         log := s.log + [Deposited(token, sender, amount)])
    case Spend(recipient, amount, token, intent, _, nonce, _, _) =>
      Enough(k, s, sender, op, time);
      s.(nonceUsed := s.nonceUsed + {nonce}, currentEpoch := EpochOf(k, time), epochSpent := SpentSoFar(k, s, time) + amount,
         balances := Paid(k, s, token, recipient, amount),
         log := s.log + [Spent(recipient, token, intent, amount, nonce, false, time)])
    case SpendFallback(recipient, amount, token) =>
      Enough(k, s, sender, op, time);
      s.(currentEpoch := EpochOf(k, time), epochSpent := SpentSoFar(k, s, time) + amount,
         balances := Paid(k, s, token, recipient, amount),
         log := s.log + [Spent(recipient, token, 0, amount, 0, true, time)])
    case OwnerWithdraw(token, to, amount) =>
      Enough(k, s, sender, op, time);
      s.(balances := Paid(k, s, token, to, amount), log := s.log + [Withdrawn(token, to, amount)])
    case TransferOwnership(newOwner) => s.(pendingOwner := newOwner)
    case AcceptOwnership => s.(owner := sender, pendingOwner := NOBODY)
    case SetOracle(newOracle) => s.(oracle := newOracle)
    case Pause => s.(paused := true)
    case Unpause => s.(paused := false)
    case SetFallbackAllowlist(recipient, perTxMax) => s.(fallbackMax := s.fallbackMax[recipient := perTxMax])
    case Gift(token, amount) =>
      s.(balances := s.balances[token := At(s.balances, token) + amount], log := s.log + [Gifted(token, amount)])
  }

  lemma Enough(k: Config, s: State, sender: Address, op: Op, time: nat)
    requires Sane(k) && forall c <- Guards(k, s, sender, op, time) :: c.holds
    ensures op.Spend? || op.SpendFallback? || op.OwnerWithdraw? ==> op.amount <= At(s.balances, op.token)
    ensures op.Deposit? || op.Spend? || op.SpendFallback? ==> !s.entered
  {
    var gs := Guards(k, s, sender, op, time);
    if op.Deposit? { assert gs[0].holds; }
    if op.Spend? { assert gs[0].holds && gs[10].holds; }
    if op.SpendFallback? { assert gs[0].holds && gs[8].holds; }
    if op.OwnerWithdraw? { assert gs[2].holds; }
  }

  /** A call that goes through changes exactly this, and one that does not changes nothing. */
  lemma ChangesExactly(k: Config, s: State, sender: Address, op: Op, time: nat)
    requires Sane(k)
    ensures var n := Exec(k, s, Alone(sender, op), time).state;
            if forall c <- Guards(k, s, sender, op, time) :: c.holds then n == Left(k, s, sender, op, time) else n == s
  {
    var gs := Guards(k, s, sender, op, time);
    RefusedForTheFirstReason(k, s, sender, op, time);
    FirstFailedMeans(gs);
    if forall c <- gs :: c.holds {
      WhenAllHold(k, s, sender, op, time);
    } else {
      RefusedKeeps(k, s, Alone(sender, op), time);
    }
  }

  /** An error anywhere undoes the whole call, whatever is nested in it. */
  lemma RefusedKeeps(k: Config, s: State, c: Call, time: nat)
    requires Sane(k) && Exec(k, s, c, time).error.Some?
    ensures Exec(k, s, c, time).state == s
  {
    hide Begin, Moved, ExecAll;
  }

  lemma WhenAllHold(k: Config, s: State, sender: Address, op: Op, time: nat)
    requires Sane(k) && (forall c <- Guards(k, s, sender, op, time) :: c.holds)
    requires Exec(k, s, Alone(sender, op), time).error == None
    ensures Exec(k, s, Alone(sender, op), time).state == Left(k, s, sender, op, time)
  {
    hide EpochOf, Guards;
    NothingNested(k, time);
    Enough(k, s, sender, op, time);
    assert op.AcceptOwnership? ==> sender == s.pendingOwner;
  }

  // ---------------------------------------------------------------- over a history

  /** After any history, what counts against the budget of a call is what was paid out by both spend paths in
      the epoch of that call, as the log has it: a new epoch brings a new budget. */
  lemma BudgetIsTheLog(k: Config, start: State, history: seq<Sent>, time: nat)
    requires Sane(k) && Constructed(start) && InOrder(history)
    requires history != [] ==> history[|history| - 1].time <= time
    ensures var s := Run(k, start, history); SpentSoFar(k, s, time) == SpentIn(k, s.log, EpochOf(k, time))
  {
    hide Run, EpochOf, SpentIn, Net, NoReplay;
    var s := Run(k, start, history);
    BooksBalance(k, start, history);
    var epoch := EpochOf(k, time);
    if history != [] { EpochsInOrder(k, history[|history| - 1].time, time); }
    NothingBefore(k, start, history);
    assert SpentIn(k, s.log, epoch) <= if epoch > s.currentEpoch then 0 else k.epochBudget;
  }

  lemma NothingBefore(k: Config, start: State, history: seq<Sent>)
    requires Sane(k) && Constructed(start)
    ensures history == [] ==> Run(k, start, history) == start && start.currentEpoch == 0
  {
  }

  /** So a signed spend after any history goes through exactly when the vault is not paused, the signature is
      the oracle's, has not expired and was not used, the amount is within the cap and within what the budget
      leaves after the payments of the same epoch, the token is listed and there is enough of it, and the
      intent is approved if it has to be. */
  lemma SpendGoesThroughIff(k: Config, start: State, history: seq<Sent>, sender: Address, op: Op, time: nat)
    requires Sane(k) && Constructed(start) && InOrder(history) && op.Spend?
    requires history != [] ==> history[|history| - 1].time <= time
    ensures var s := Run(k, start, history);
            Exec(k, s, Alone(sender, op), time).error == None
            <==> && !s.paused && op.signer == Some(s.oracle) && time <= op.expiry && op.nonce !in s.nonceUsed
                 && op.amount <= k.perTxCap
                 && SpentIn(k, s.log, EpochOf(k, time)) + op.amount <= k.epochBudget
                 && op.token in k.tokens && op.amount <= At(s.balances, op.token)
                 && (k.requireAnchoredIntent ==> op.usable == Some(true))
  {
    hide Run, EpochOf, SpentIn, Exec, FirstFailed, Books;
    var s := Run(k, start, history);
    BudgetIsTheLog(k, start, history, time);
    NotEntered(k, start, history);
    RefusedForTheFirstReason(k, s, sender, op, time);
    var gs := Guards(k, s, sender, op, time);
    FirstFailedMeans(gs);
    if forall c <- gs :: c.holds {
      assert gs[0].holds && gs[1].holds && gs[2].holds && gs[3].holds && gs[5].holds && gs[6].holds && gs[7].holds;
      assert gs[8].holds && gs[9].holds && gs[10].holds;
    }
  }

  /** And a fallback by the owner exactly within the recipient's cap, the same budget and the balance. */
  lemma FallbackGoesThroughIff(k: Config, start: State, history: seq<Sent>, sender: Address, op: Op, time: nat)
    requires Sane(k) && Constructed(start) && InOrder(history) && op.SpendFallback?
    requires history != [] ==> history[|history| - 1].time <= time
    ensures var s := Run(k, start, history);
            Exec(k, s, Alone(sender, op), time).error == None
            <==> && !s.paused && sender == s.owner && 0 < op.amount <= At(s.fallbackMax, op.recipient)
                 && SpentIn(k, s.log, EpochOf(k, time)) + op.amount <= k.epochBudget
                 && op.token in k.tokens && op.amount <= At(s.balances, op.token)
  {
    hide Run, EpochOf, SpentIn, Exec, FirstFailed, Books;
    var s := Run(k, start, history);
    BudgetIsTheLog(k, start, history, time);
    NotEntered(k, start, history);
    RefusedForTheFirstReason(k, s, sender, op, time);
    var gs := Guards(k, s, sender, op, time);
    FirstFailedMeans(gs);
    if forall c <- gs :: c.holds {
      assert gs[0].holds && gs[1].holds && gs[2].holds && gs[3].holds && gs[4].holds && gs[5].holds && gs[6].holds;
      assert gs[7].holds && gs[8].holds;
    }
  }

  lemma NotEntered(k: Config, start: State, history: seq<Sent>)
    requires Sane(k) && Constructed(start) && InOrder(history)
    ensures !Run(k, start, history).entered
  {
    hide Run, EpochOf, SpentIn, Net, NoReplay;
    BooksBalance(k, start, history);
  }
}
