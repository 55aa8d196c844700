/** Every payment out of UntchVault traced to the call that made it, and the master equation decided from the
    calls alone. */
module VaultAuthority {
  import opened Wrappers
  import opened Vault

  // ---------------------------------------------------------------- the calls of a run

  /** A call, top-level or nested, and the vault as it finds it. */
  datatype Visit = Visit(state: State, call: Call, time: nat)

  /** The calls that take effect in the course of a call, each when it is done: what a call undoes when it
      fails is not among them. */
  function Kept(k: Config, s: State, c: Call, time: nat): seq<Visit>
    requires Sane(k)
    decreases c
  {
    match Begin(k, s, c.sender, c.op, time)
    case Reject(_) => []
    case Settle(_) => [Visit(s, c, time)]
    case Move(p) =>
      match Moved(k, ExecAll(k, p.state, c.before, time), p)
      case None => []
      case Some(moved) =>
        if !c.tokenOk then []
        else KeptAll(k, p.state, c.before, time) + KeptAll(k, moved, c.after, time) + [Visit(s, c, time)]
  }

  function KeptAll(k: Config, s: State, cs: seq<Call>, time: nat): seq<Visit>
    requires Sane(k)
    decreases cs
  {
    if cs == [] then []
    else Kept(k, s, cs[0], time) + KeptAll(k, Exec(k, s, cs[0], time).state, cs[1..], time)
  }

  function RunKept(k: Config, s: State, history: seq<Sent>): seq<Visit>
    requires Sane(k)
  {
    if history == [] then []
    else
      var earlier, last := history[..|history| - 1], history[|history| - 1];
      RunKept(k, s, earlier) + Kept(k, Run(k, s, earlier), last.call, last.time)
  }

  // ---------------------------------------------------------------- who may do what

  /** What a call needs to take effect, judged by the vault as the call finds it. The three ways out are a
      spend that is signed for, a withdrawal by the owner, and a fallback by the owner within the recipient's
      cap and the budget. */
  predicate Legitimate(k: Config, v: Visit)
    requires Sane(k)
  {
    var s, op, owns := v.state, v.call.op, v.call.sender == v.state.owner;
    match op
    case Spend(_, _, _, _, _, _, _, _) => SignedFor(k, s, op, v.time)
    case SpendFallback(recipient, amount, token) =>
      && owns && !s.paused && 0 < amount <= At(s.fallbackMax, recipient)
      && token in k.tokens && Rolled(s, EpochOf(k, v.time)) + amount <= k.epochBudget
    case OwnerWithdraw(_, to, _) => owns && to != NOBODY
    case Deposit(token, amount) => token in k.tokens && amount > 0
    case AcceptOwnership => v.call.sender == s.pendingOwner
    case SetOracle(newOracle) => owns && newOracle != NOBODY
    case SetFallbackAllowlist(recipient, _) => owns && recipient != NOBODY
    case Gift(_, _) => true
    case _ => owns
  }

  /** The event of a call that took effect. */
  function Receipt(v: Visit): seq<Entry> {
    match v.call.op
    case Deposit(token, amount) => [Deposited(token, v.call.sender, amount)]
    case Spend(recipient, amount, token, intent, _, nonce, _, _) =>
      [Spent(recipient, token, intent, amount, nonce, false, v.time)]
    case SpendFallback(recipient, amount, token) => [Spent(recipient, token, 0, amount, 0, true, v.time)]
    case OwnerWithdraw(token, to, amount) => [Withdrawn(token, to, amount)]
    case Gift(token, amount) => [Gifted(token, amount)]
    case _ => []
  }

  function Receipts(visits: seq<Visit>): seq<Entry> {
    if visits == [] then [] else Receipts(visits[..|visits| - 1]) + Receipt(visits[|visits| - 1])
  }

  lemma {:induction false} ReceiptsConcat(a: seq<Visit>, b: seq<Visit>)
    ensures Receipts(a + b) == Receipts(a) + Receipts(b)
    decreases |b|
  {
    hide Receipt;
    if b == [] {
      assert a + b == a;
    } else {
      assert (a + b)[..|a + b| - 1] == a + b[..|b| - 1];
      ReceiptsConcat(a, b[..|b| - 1]);
    }
  }

  lemma OneReceipt(v: Visit)
    ensures Receipts([v]) == Receipt(v)
  {
    hide Receipt;
    assert [v][..0] == [];
  }

  predicate AllLegitimate(k: Config, visits: seq<Visit>)
    requires Sane(k)
  {
    forall v <- visits :: Legitimate(k, v)
  }

  lemma BeginIsLegitimate(k: Config, s: State, c: Call, time: nat)
    requires Sane(k)
    ensures var step, v := Begin(k, s, c.sender, c.op, time), Visit(s, c, time);
            && (!step.Reject? ==> Legitimate(k, v))
            && (step.Move? ==> step.plan.state.log == s.log && Receipt(v) == [step.plan.entry])
            && (step.Settle? ==> step.state.log == s.log + Receipt(v))
  {
    hide EpochOf;
  }

  /** A call adds to the log the receipts of the calls that took effect, one each and in their order, and
      every one of these calls had what it needs. */
  lemma {:induction false} ExecIsItsCalls(k: Config, s: State, c: Call, time: nat)
    requires Sane(k)
    ensures Exec(k, s, c, time).state.log == s.log + Receipts(Kept(k, s, c, time))
    ensures AllLegitimate(k, Kept(k, s, c, time))
    decreases c
  {
    hide Begin, Moved, ExecAll, KeptAll, Legitimate, Receipt, Receipts;
    BeginIsLegitimate(k, s, c, time);
    var step, v := Begin(k, s, c.sender, c.op, time), Visit(s, c, time);
    OneReceipt(v);
    NoReceipts();
    if step.Move? && Exec(k, s, c, time).error == None {
      var p := step.plan;
      var ready := ExecAll(k, p.state, c.before, time);
      var moved := Moved(k, ready, p).value;
      MovedKeepsLog(k, ready, p);
      ExecAllIsItsCalls(k, p.state, c.before, time);
      ExecAllIsItsCalls(k, moved, c.after, time);
      var first, second := KeptAll(k, p.state, c.before, time), KeptAll(k, moved, c.after, time);
      ReceiptsConcat(first, second);
      ReceiptsConcat(first + second, [v]);
      assert s.log + Receipts(first) + Receipts(second) + [p.entry] == s.log + (Receipts(first) + Receipts(second) + [p.entry]);
    } else if !step.Settle? {
      assert s.log + [] == s.log;
    }
  }

  lemma NoReceipts()
    ensures Receipts([]) == []
  {
  }

  lemma MovedKeepsLog(k: Config, s: State, p: Plan)
    ensures Moved(k, s, p).Some? ==> Moved(k, s, p).value.log == s.log
  {
  }

  lemma {:induction false} ExecAllIsItsCalls(k: Config, s: State, cs: seq<Call>, time: nat)
    requires Sane(k)
    ensures ExecAll(k, s, cs, time).log == s.log + Receipts(KeptAll(k, s, cs, time))
    ensures AllLegitimate(k, KeptAll(k, s, cs, time))
    decreases cs
  {
    hide Exec, Kept, Legitimate, Receipt, Receipts;
    if cs == [] {
      NoReceipts();
      assert s.log + [] == s.log;
    } else {
      var next := Exec(k, s, cs[0], time).state;
      ExecIsItsCalls(k, s, cs[0], time);
      ExecAllIsItsCalls(k, next, cs[1..], time);
      var first, rest := Kept(k, s, cs[0], time), KeptAll(k, next, cs[1..], time);
      ReceiptsConcat(first, rest);
      assert s.log + Receipts(first) + Receipts(rest) == s.log + (Receipts(first) + Receipts(rest));
    }
  }

  /** No token leaves the vault but by a legitimate call, and by each such call once: in every history, with
      owners, oracles and limits changing along the way and calls nested in calls, the log is exactly the
      receipts of the calls that took effect, and every one of them satisfied the guards of its kind at the
      moment it was made. */
  lemma {:induction false} EveryPaymentIsLegitimate(k: Config, start: State, history: seq<Sent>)
    requires Sane(k)
    ensures Run(k, start, history).log == start.log + Receipts(RunKept(k, start, history))
    ensures AllLegitimate(k, RunKept(k, start, history))
    decreases |history|
  {
    hide Exec, Kept, Legitimate, Receipt, Receipts;
    if history == [] {
      NoReceipts();
      assert start.log + [] == start.log;
    } else {
      var earlier, last := history[..|history| - 1], history[|history| - 1];
      var s := Run(k, start, earlier);
      EveryPaymentIsLegitimate(k, start, earlier);
      ExecIsItsCalls(k, s, last.call, last.time);
      var before, now := RunKept(k, start, earlier), Kept(k, s, last.call, last.time);
      ReceiptsConcat(before, now);
      assert start.log + Receipts(before) + Receipts(now) == start.log + (Receipts(before) + Receipts(now));
    }
  }

  // ---------------------------------------------------------------- the master equation, from the calls

  /** Sends the vault some of the token without depositing it. */
  predicate Gives(op: Op, token: Address) {
    op.Gift? && op.token == token && op.amount > 0
  }

  /** Asks the vault to pay some of the token to itself. */
  predicate PaysItself(k: Config, op: Op, token: Address) {
    match op
    case Spend(recipient, amount, t, _, _, _, _, _) => t == token && recipient == k.self && amount > 0
    case SpendFallback(recipient, amount, t) => t == token && recipient == k.self && amount > 0
    case OwnerWithdraw(t, to, amount) => t == token && to == k.self && amount > 0
    case _ => false
  }

  lemma ReceiptMissed(k: Config, v: Visit, token: Address)
    ensures (exists e <- Receipt(v) :: Missed(k, e, token)) <==> Gives(v.call.op, token) || PaysItself(k, v.call.op, token)
  {
    if Receipt(v) != [] { assert Receipt(v)[0] in Receipt(v); }
  }

  lemma {:induction false} ReceiptsMissed(k: Config, visits: seq<Visit>, token: Address)
    ensures (exists e <- Receipts(visits) :: Missed(k, e, token))
      <==> exists v <- visits :: Gives(v.call.op, token) || PaysItself(k, v.call.op, token)
  {
    hide Receipt, Missed, Gives, PaysItself;
    if visits != [] {
      var fewer, last := visits[..|visits| - 1], visits[|visits| - 1];
      ReceiptsMissed(k, fewer, token);
      ReceiptMissed(k, last, token);
      assert visits == fewer + [last];
      assert forall v :: v in visits <==> v in fewer || v == last;
      assert forall e :: e in Receipts(visits) <==> e in Receipts(fewer) || e in Receipt(last);
    }
  }

  /** For every history the master equation holds at the end if and only if no call that took effect, nested or
      not, gave the vault any of the token or had it pay any to itself. */
  lemma EquationByCalls(k: Config, start: State, history: seq<Sent>, token: Address)
    requires Sane(k) && Constructed(start) && InOrder(history)
    ensures var s := Run(k, start, history);
            At(s.balances, token) == At(start.balances, token) + PaperTotal(k, s.log, token)
            <==> forall v <- RunKept(k, start, history) :: !Gives(v.call.op, token) && !PaysItself(k, v.call.op, token)
  {
    hide Run, RunKept, Missed, Gives, PaysItself, PaperTotal, Receipts;
    MasterEquation(k, start, history, token);
    EveryPaymentIsLegitimate(k, start, history);
    ReceiptsMissed(k, RunKept(k, start, history), token);
    assert start.log == [] by { NothingLogged(start); }
    assert start.log + Receipts(RunKept(k, start, history)) == Receipts(RunKept(k, start, history));
  }

  /** Neither the call nor anything inside it does either. */
  predicate Plain(k: Config, c: Call, token: Address)
    decreases c
  {
    && !Gives(c.op, token) && !PaysItself(k, c.op, token)
    && (forall d <- c.before :: Plain(k, d, token)) && (forall d <- c.after :: Plain(k, d, token))
  }

  predicate Unmissed(k: Config, log: seq<Entry>, token: Address) {
    forall e <- log :: !Missed(k, e, token)
  }

  lemma BeginUnmissed(k: Config, s: State, sender: Address, op: Op, time: nat, token: Address)
    requires Sane(k)
    ensures var step := Begin(k, s, sender, op, time);
            && (step.Move? ==> step.plan.state.log == s.log && (Missed(k, step.plan.entry, token) ==> PaysItself(k, op, token)))
            && (step.Settle? && !Gives(op, token) && Unmissed(k, s.log, token) ==> Unmissed(k, step.state.log, token))
            && (step.Settle? ==> s.log <= step.state.log)
            && (Gives(op, token) ==> step.Settle? && !Unmissed(k, step.state.log, token))
  {
    hide EpochOf;
    if Gives(op, token) {
      var gifted := Gifted(op.token, op.amount);
      assert gifted in s.log + [gifted] && Missed(k, gifted, token);
    }
  }

  /** The log grows, and by nothing that the equation misses if the call is plain. */
  lemma {:induction false} ExecUnmissed(k: Config, s: State, c: Call, time: nat, token: Address)
    requires Sane(k)
    ensures s.log <= Exec(k, s, c, time).state.log
    ensures Plain(k, c, token) && Unmissed(k, s.log, token) ==> Unmissed(k, Exec(k, s, c, time).state.log, token)
    decreases c
  {
    hide Begin, Moved, ExecAll, Missed;
    BeginUnmissed(k, s, c.sender, c.op, time, token);
    var step := Begin(k, s, c.sender, c.op, time);
    if step.Move? && Exec(k, s, c, time).error == None {
      var p := step.plan;
      var ready := ExecAll(k, p.state, c.before, time);
      ExecAllUnmissed(k, p.state, c.before, time, token);
      MovedKeepsLog(k, ready, p);
      ExecAllUnmissed(k, Moved(k, ready, p).value, c.after, time, token);
    }
  }

  lemma {:induction false} ExecAllUnmissed(k: Config, s: State, cs: seq<Call>, time: nat, token: Address)
    requires Sane(k)
    ensures s.log <= ExecAll(k, s, cs, time).log
    ensures (forall d <- cs :: Plain(k, d, token)) && Unmissed(k, s.log, token) ==>
              Unmissed(k, ExecAll(k, s, cs, time).log, token)
    decreases cs
  {
    hide Exec, Missed, Plain;
    if cs != [] {
      ExecUnmissed(k, s, cs[0], time, token);
      ExecAllUnmissed(k, Exec(k, s, cs[0], time).state, cs[1..], time, token);
    }
  }

  /** No call pays the vault itself, and tokens are given to it, if at all, between calls. */
  predicate Separate(k: Config, c: Call, token: Address) {
    Plain(k, c, token) || Gives(c.op, token)
  }

  lemma GivesBreaks(k: Config, s: State, c: Call, time: nat, token: Address)
    requires Sane(k) && Gives(c.op, token)
    ensures !Unmissed(k, Exec(k, s, c, time).state.log, token)
  {
    hide Begin, Unmissed;
    BeginUnmissed(k, s, c.sender, c.op, time, token);
  }

  lemma {:induction false} RunUnmissed(k: Config, start: State, history: seq<Sent>, token: Address)
    requires Sane(k) && start.log == [] && forall h <- history :: Separate(k, h.call, token)
    ensures Unmissed(k, Run(k, start, history).log, token) <==> forall h <- history :: !Gives(h.call.op, token)
    decreases |history|
  {
    hide Exec, Missed, Plain, Gives;
    if history != [] {
      var earlier, last := history[..|history| - 1], history[|history| - 1];
      assert history == earlier + [last];
      assert forall h :: h in history <==> h in earlier || h == last;
      RunUnmissed(k, start, earlier, token);
      var s := Run(k, start, earlier);
      ExecUnmissed(k, s, last.call, last.time, token);
      if Gives(last.call.op, token) {
        GivesBreaks(k, s, last.call, last.time, token);
      } else {
        StillMissed(k, s.log, Exec(k, s, last.call, last.time).state.log, token);
      }
    }
  }

  lemma StillMissed(k: Config, log: seq<Entry>, longer: seq<Entry>, token: Address)
    requires log <= longer
    ensures Unmissed(k, longer, token) ==> Unmissed(k, log, token)
  {
    hide Missed;
    assert forall i | 0 <= i < |log| :: log[i] == longer[i];
  }

  /** For every history in which no call pays the vault itself and tokens are given to it only between
      calls, the master equation holds at the end if and only if nobody gave any. */
  lemma EquationIffNoGifts(k: Config, start: State, history: seq<Sent>, token: Address)
    requires Sane(k) && Constructed(start) && InOrder(history)
    requires forall h <- history :: Separate(k, h.call, token)
    ensures var s := Run(k, start, history);
            At(s.balances, token) == At(start.balances, token) + PaperTotal(k, s.log, token)
            <==> forall h <- history :: !Gives(h.call.op, token)
  {
    hide Run, Missed, Separate, Gives, PaperTotal;
    MasterEquation(k, start, history, token);
    RunUnmissed(k, start, history, token);
  }

  /** A payment to itself breaks it too: a withdrawal by the owner to the vault leaves the balance as it was
      and is booked as paid out. */
  lemma PaymentToItselfBreaks(k: Config, start: State, token: Address, amount: nat, time: nat)
    requires Sane(k) && Constructed(start) && k.self != NOBODY && 0 < amount <= At(start.balances, token)
    ensures var s := Run(k, start, [Sent(Call(start.owner, OwnerWithdraw(token, k.self, amount), [], [], true), time)]);
            At(s.balances, token) != At(start.balances, token) + PaperTotal(k, s.log, token)
  {
    hide *;
    var c := Call(start.owner, OwnerWithdraw(token, k.self, amount), [], [], true);
    var event := Withdrawn(token, k.self, amount);
    WithdrawsToItself(k, start, token, amount, time);
    RunOfOne(k, start, Sent(c, time));
    assert start.log == [] by { NothingLogged(start); }
    assert start.log + [event] == [event];
    PaperOfOne(k, event, token);
  }

  lemma NothingLogged(start: State)
    requires Constructed(start)
    ensures start.log == []
  {
  }

  lemma WithdrawsToItself(k: Config, s: State, token: Address, amount: nat, time: nat)
    requires Sane(k) && k.self != NOBODY && amount <= At(s.balances, token)
    ensures Exec(k, s, Call(s.owner, OwnerWithdraw(token, k.self, amount), [], [], true), time).state
            == s.(log := s.log + [Withdrawn(token, k.self, amount)])
  {
    assert ExecAll(k, s, [], time) == s;
  }

  lemma RunOfOne(k: Config, start: State, sent: Sent)
    requires Sane(k)
    ensures Run(k, start, [sent]) == Exec(k, start, sent.call, sent.time).state
  {
    hide Exec;
    assert [sent][..0] == [];
  }

  lemma PaperOfOne(k: Config, e: Entry, token: Address)
    ensures PaperTotal(k, [e], token) == OnPaper(k, e, token)
    ensures e.Withdrawn? && e.token == token ==> OnPaper(k, e, token) == 0 - e.amount
  {
    assert [e][..0] == [];
  }
}
