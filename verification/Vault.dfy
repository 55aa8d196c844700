/** UntchVault.sol: three bounded ways out, under tokens that may call back into the vault at will. */
module Vault {
  import opened Wrappers

  type Address = nat

  const NOBODY: Address := 0

  /** The immutable part. `guarded` is true of the contract; the false case is the same contract without
      its reentrancy guard, to show what the order of effects and interactions gives by itself. */
  datatype Config = Config(
    self: Address, perTxCap: nat, epochBudget: nat, epochLen: nat, epochGenesis: nat,
    requireAnchoredIntent: bool, tokens: set<Address>, guarded: bool)

  predicate Sane(k: Config) {
    k.epochLen > 0
  }

  /** Events, in the order they are emitted. A gift is tokens sent to the vault without calling it. */
  datatype Entry =
    | Deposited(token: Address, from: Address, amount: nat)
    | Spent(recipient: Address, token: Address, intent: nat, amount: nat, nonce: nat, viaFallback: bool, time: nat)
    | Withdrawn(token: Address, to: Address, amount: nat)
    | Gifted(token: Address, amount: nat)

  datatype State = State(
    owner: Address, pendingOwner: Address, oracle: Address, paused: bool,
    nonceUsed: set<nat>, fallbackMax: map<Address, nat>,
    currentEpoch: nat, epochSpent: nat, entered: bool,
    balances: map<Address, nat>, log: seq<Entry>)

  /** A signature stands for the address it recovers to, None when recovery itself reverts; the registry's
      answer is None when the call fails in any way. */
  datatype Op =
    | Deposit(token: Address, amount: nat)
    | Spend(recipient: Address, amount: nat, token: Address, intent: nat,
            signer: Option<Address>, nonce: nat, expiry: nat, usable: Option<bool>)
    | SpendFallback(recipient: Address, amount: nat, token: Address)
    | OwnerWithdraw(token: Address, to: Address, amount: nat)
    | TransferOwnership(newOwner: Address)
    | AcceptOwnership
    | SetOracle(newOracle: Address)
    | Pause
    | Unpause
    | SetFallbackAllowlist(recipient: Address, perTxMax: nat)
    | Gift(token: Address, amount: nat)

  /** A call and what its token does with it: the calls it makes before and after moving the balance, and
      whether its transfer succeeds in the end. */
  datatype Call = Call(sender: Address, op: Op, before: seq<Call>, after: seq<Call>, tokenOk: bool)

  datatype Error =
    | NotOwner | NotPendingOwner | ZeroAddress | ZeroValue | Reentrancy | VaultPaused | SigExpired | NonceReplay
    | BadSignature | BadOracle | CapExceeded | BudgetExceeded | TokenNotAllowed | IntentNotApproved
    | FallbackRecipientNotAllowed | TransferFailed

  function At(m: map<Address, nat>, a: Address): nat {
    if a in m then m[a] else 0
  }

  function EpochOf(k: Config, time: nat): nat
    requires Sane(k)
  {
    if time < k.epochGenesis then 0 else (time - k.epochGenesis) / k.epochLen
  }

  /** What the budget is compared with: a rolled-over epoch starts fresh. */
  function Rolled(s: State, epoch: nat): nat {
    if epoch > s.currentEpoch then 0 else s.epochSpent
  }

  // ---------------------------------------------------------------- one call

  /** A token movement still to come, and the event for when it has come. */
  datatype Plan = Plan(state: State, token: Address, outward: bool, party: Address, amount: nat, entry: Entry, locks: bool)

  datatype Step = Reject(error: Error) | Settle(state: State) | Move(plan: Plan)

  function Lock(k: Config, s: State): State { if k.guarded then s.(entered := true) else s }

  function Unlock(k: Config, s: State): State { if k.guarded then s.(entered := false) else s }

  /** Guards in the contract's order, then effects; what is left is the call to the token. */
  function Begin(k: Config, s: State, sender: Address, op: Op, time: nat): Step
    requires Sane(k)
  {
    var owns := sender == s.owner;
    match op
    case Deposit(token, amount) =>
      if s.entered then Reject(Reentrancy)
      else if token !in k.tokens then Reject(TokenNotAllowed)
      else if amount == 0 then Reject(ZeroValue)
      else Move(Plan(Lock(k, s), token, false, sender, amount, Deposited(token, sender, amount), true))
    case Spend(recipient, amount, token, intent, signer, nonce, expiry, usable) =>
      var wouldBe := Rolled(s, EpochOf(k, time)) + amount;
      if s.entered then Reject(Reentrancy)
      else if s.paused then Reject(VaultPaused)
      else if time > expiry then Reject(SigExpired)
      else if nonce in s.nonceUsed then Reject(NonceReplay)
      else if signer.None? then Reject(BadSignature)
      else if signer.value != s.oracle then Reject(BadOracle)
      else if amount > k.perTxCap then Reject(CapExceeded)
      else if wouldBe > k.epochBudget then Reject(BudgetExceeded)
      else if token !in k.tokens then Reject(TokenNotAllowed)
      else if k.requireAnchoredIntent && usable != Some(true) then Reject(IntentNotApproved)
      else
        Move(Plan(
          Lock(k, s).(nonceUsed := s.nonceUsed + {nonce}, currentEpoch := EpochOf(k, time), epochSpent := wouldBe),
          token, true, recipient, amount, Spent(recipient, token, intent, amount, nonce, false, time), true))
    case SpendFallback(recipient, amount, token) =>
      var wouldBe := Rolled(s, EpochOf(k, time)) + amount;
      if s.entered then Reject(Reentrancy)
      else if s.paused then Reject(VaultPaused)
      else if !owns then Reject(NotOwner)
      else if At(s.fallbackMax, recipient) == 0 then Reject(FallbackRecipientNotAllowed)
      else if amount == 0 then Reject(ZeroValue)
      else if amount > At(s.fallbackMax, recipient) then Reject(CapExceeded)
      else if token !in k.tokens then Reject(TokenNotAllowed)
      else if wouldBe > k.epochBudget then Reject(BudgetExceeded)
      else
        Move(Plan(
          Lock(k, s).(currentEpoch := EpochOf(k, time), epochSpent := wouldBe),
          token, true, recipient, amount, Spent(recipient, token, 0, amount, 0, true, time), true))
    case OwnerWithdraw(token, to, amount) =>
      if !owns then Reject(NotOwner)
      else if to == NOBODY then Reject(ZeroAddress)
      else Move(Plan(s, token, true, to, amount, Withdrawn(token, to, amount), false))
    case TransferOwnership(newOwner) =>
      if !owns then Reject(NotOwner) else Settle(s.(pendingOwner := newOwner))
    case AcceptOwnership =>
      if sender != s.pendingOwner then Reject(NotPendingOwner)
      else Settle(s.(owner := s.pendingOwner, pendingOwner := NOBODY))
    case SetOracle(newOracle) =>
      if !owns then Reject(NotOwner)
      else if newOracle == NOBODY then Reject(ZeroAddress)
      else Settle(s.(oracle := newOracle))
    case Pause => if !owns then Reject(NotOwner) else Settle(s.(paused := true))
    case Unpause => if !owns then Reject(NotOwner) else Settle(s.(paused := false))
    case SetFallbackAllowlist(recipient, perTxMax) =>
      if !owns then Reject(NotOwner)
      else if recipient == NOBODY then Reject(ZeroAddress)
      else Settle(s.(fallbackMax := s.fallbackMax[recipient := perTxMax]))
    case Gift(token, amount) =>
      Settle(s.(balances := s.balances[token := At(s.balances, token) + amount], log := s.log + [Gifted(token, amount)]))
  }

  /** The token moves the balance; a payment to the vault itself leaves it where it was. */
  function Moved(k: Config, s: State, p: Plan): Option<State> {
    var had := At(s.balances, p.token);
    if p.outward && had < p.amount then None
    else if p.party == k.self then Some(s)
    else Some(s.(balances := s.balances[p.token := if p.outward then had - p.amount else had + p.amount]))
  }

  function Finish(k: Config, s: State, p: Plan): State {
    var emitted := s.(log := s.log + [p.entry]);
    if p.locks then Unlock(k, emitted) else emitted
  }

  datatype Outcome = Outcome(state: State, error: Option<Error>)

  /** A call with everything that happens inside it. An error anywhere undoes the whole call. */
  function Exec(k: Config, s: State, c: Call, time: nat): Outcome
    requires Sane(k)
    decreases c
  {
    match Begin(k, s, c.sender, c.op, time)
    case Reject(e) => Outcome(s, Some(e))
    case Settle(next) => Outcome(next, None)
    case Move(p) =>
      match Moved(k, ExecAll(k, p.state, c.before, time), p)
      case None => Outcome(s, Some(TransferFailed))
      case Some(moved) =>
        if !c.tokenOk then Outcome(s, Some(TransferFailed))
        else Outcome(Finish(k, ExecAll(k, moved, c.after, time), p), None)
  }

  /** A token carries on after a call of its own that was refused. */
  function ExecAll(k: Config, s: State, cs: seq<Call>, time: nat): State
    requires Sane(k)
    decreases cs
  {
    if cs == [] then s else ExecAll(k, Exec(k, s, cs[0], time).state, cs[1..], time)
  }

  // ---------------------------------------------------------------- accounts over the log

  /** What an event says about a token's balance. */
  function Flow(k: Config, e: Entry, token: Address): int {
    match e
    case Deposited(t, from, amount) => if t == token && from != k.self then amount else 0
    case Gifted(t, amount) => if t == token then amount else 0
    case Spent(to, t, _, amount, _, _, _) => if t == token && to != k.self then 0 - amount else 0
    case Withdrawn(t, to, amount) => if t == token && to != k.self then 0 - amount else 0
  }

  function Net(k: Config, log: seq<Entry>, token: Address): int {
    if log == [] then 0 else Net(k, log[..|log| - 1], token) + Flow(k, log[|log| - 1], token)
  }

  function SpentBy(e: Entry): nat {
    if e.Spent? then e.amount else 0
  }

  function SpentTotal(log: seq<Entry>): nat {
    if log == [] then 0 else SpentTotal(log[..|log| - 1]) + SpentBy(log[|log| - 1])
  }

  lemma {:induction false} NetConcat(k: Config, a: seq<Entry>, b: seq<Entry>, token: Address)
    ensures Net(k, a + b, token) == Net(k, a, token) + Net(k, b, token)
    decreases |b|
  {
    hide Flow;
    if b == [] {
      assert a + b == a;
    } else {
      assert (a + b)[..|a + b| - 1] == a + b[..|b| - 1];
      NetConcat(k, a, b[..|b| - 1], token);
    }
  }

  lemma {:induction false} SpentConcat(a: seq<Entry>, b: seq<Entry>)
    ensures SpentTotal(a + b) == SpentTotal(a) + SpentTotal(b)
    decreases |b|
  {
    hide SpentBy;
    if b == [] {
      assert a + b == a;
    } else {
      assert (a + b)[..|a + b| - 1] == a + b[..|b| - 1];
      SpentConcat(a, b[..|b| - 1]);
    }
  }

  predicate PaidOn(e: Entry, nonce: nat) {
    e.Spent? && !e.viaFallback && e.nonce == nonce
  }

  /** No nonce pays twice in a stretch of the log. */
  predicate NoReplay(log: seq<Entry>) {
    forall i, j | 0 <= i < j < |log| :: log[i].Spent? && !log[i].viaFallback ==> !PaidOn(log[j], log[i].nonce)
  }

  predicate Fresh(log: seq<Entry>, used: set<nat>) {
    forall e <- log :: e.Spent? && !e.viaFallback ==> e.nonce !in used
  }

  predicate Recorded(log: seq<Entry>, used: set<nat>) {
    forall e <- log :: e.Spent? && !e.viaFallback ==> e.nonce in used
  }

  // ---------------------------------------------------------------- what every call keeps

  /** From s to n something happened at this time, with these events: balances moved by the events' flow,
      no nonce used before was paid on again, and the epoch's account grew by exactly what was spent. */
  ghost predicate Sound(k: Config, s: State, n: State, events: seq<Entry>, time: nat)
    requires Sane(k)
  {
    && n.log == s.log + events
    && (forall token :: At(n.balances, token) == At(s.balances, token) + Net(k, events, token))
    && s.nonceUsed <= n.nonceUsed && NoReplay(events) && Fresh(events, s.nonceUsed) && Recorded(events, n.nonceUsed)
    && s.currentEpoch <= n.currentEpoch <= EpochOf(k, time)
    && Rolled(s, EpochOf(k, time)) + SpentTotal(events) == Rolled(n, EpochOf(k, time))
    && (Rolled(s, EpochOf(k, time)) <= k.epochBudget ==> Rolled(n, EpochOf(k, time)) <= k.epochBudget)
    && (forall e <- events :: e.Spent? ==> e.time == time)
    && (n.currentEpoch < EpochOf(k, time) ==> n.currentEpoch == s.currentEpoch && n.epochSpent == s.epochSpent)
    && n.entered == s.entered
  }

  /** The present is not before the epoch on record. */
  predicate Current(k: Config, s: State, time: nat)
    requires Sane(k)
  {
    s.currentEpoch <= EpochOf(k, time)
  }

  lemma SoundNothing(k: Config, s: State, time: nat)
    requires Sane(k) && Current(k, s, time)
    ensures Sound(k, s, s, [], time)
  {
  }

  lemma SoundTwice(k: Config, a: State, b: State, c: State, ab: seq<Entry>, bc: seq<Entry>, time: nat)
    requires Sane(k) && Sound(k, a, b, ab, time) && Sound(k, b, c, bc, time)
    ensures Sound(k, a, c, ab + bc, time)
  {
    hide EpochOf, Net, SpentTotal, Rolled, At, PaidOn;
    assert a.log + ab + bc == a.log + (ab + bc);
    forall token
      ensures At(c.balances, token) == At(a.balances, token) + Net(k, ab + bc, token)
    {
      NetConcat(k, ab, bc, token);
    }
    SpentConcat(ab, bc);
    NoReplayConcat(ab, bc, b.nonceUsed);
  }

  lemma NoReplayConcat(a: seq<Entry>, b: seq<Entry>, used: set<nat>)
    requires NoReplay(a) && NoReplay(b) && Recorded(a, used) && Fresh(b, used)
    ensures NoReplay(a + b)
  {
    var ab := a + b;
    forall i, j | 0 <= i < j < |ab| && ab[i].Spent? && !ab[i].viaFallback
      ensures !PaidOn(ab[j], ab[i].nonce)
    {
      if i < |a| <= j {
        assert a[i] in a && b[j - |a|] in b;
      }
    }
  }

  /** Whatever a call is and whatever happens inside it, the state it leaves is soundly accounted for;
      with the reentrancy guard or without it. */
  lemma {:induction false} ExecSound(k: Config, s: State, c: Call, time: nat) returns (events: seq<Entry>)
    requires Sane(k) && Current(k, s, time)
    ensures Sound(k, s, Exec(k, s, c, time).state, events, time)
    decreases c
  {
    hide Begin, Sound, ExecAll, Moved;
    var step := Begin(k, s, c.sender, c.op, time);
    if step.Settle? {
      events := SettleSound(k, s, c.sender, c.op, time);
    } else if step.Move? && Exec(k, s, c, time).error == None {
      var p := step.plan;
      MoveBegins(k, s, c.sender, c.op, time);
      var first := ExecAllSound(k, p.state, c.before, time);
      var ready := ExecAll(k, p.state, c.before, time);
      var moved := Moved(k, ready, p).value;
      CurrentAfter(k, p.state, ready, moved, p, first, time);
      var second := ExecAllSound(k, moved, c.after, time);
      var done := ExecAll(k, moved, c.after, time);
      events := first + second + [p.entry];
      PaymentSound(k, s, p, first, ready, second, done, time);
    } else {
      events := [];
      SoundNothing(k, s, time);
    }
  }

  lemma {:induction false} ExecAllSound(k: Config, s: State, cs: seq<Call>, time: nat) returns (events: seq<Entry>)
    requires Sane(k) && Current(k, s, time)
    ensures Sound(k, s, ExecAll(k, s, cs, time), events, time)
    decreases cs
  {
    if cs == [] {
      events := [];
      SoundNothing(k, s, time);
    } else {
      hide Sound, Exec;
      var first := ExecSound(k, s, cs[0], time);
      var next := Exec(k, s, cs[0], time).state;
      assert Current(k, next, time) by { SoundIsCurrent(k, s, next, first, time); }
      var rest := ExecAllSound(k, next, cs[1..], time);
      events := first + rest;
      SoundTwice(k, s, next, ExecAll(k, next, cs[1..], time), first, rest, time);
    }
  }

  lemma SoundIsCurrent(k: Config, s: State, n: State, events: seq<Entry>, time: nat)
    requires Sane(k) && Sound(k, s, n, events, time)
    ensures Current(k, n, time)
  {
  }

  lemma SettleSound(k: Config, s: State, sender: Address, op: Op, time: nat) returns (events: seq<Entry>)
    requires Sane(k) && Current(k, s, time) && Begin(k, s, sender, op, time).Settle?
    ensures Sound(k, s, Begin(k, s, sender, op, time).state, events, time)
  {
    hide EpochOf;
    events := if op.Gift? then [Gifted(op.token, op.amount)] else [];
    if op.Gift? {
      assert events[..0] == [];
      assert forall token :: Net(k, events, token) == Flow(k, events[0], token);
      assert SpentTotal(events) == SpentTotal([]) + SpentBy(events[0]);
    }
  }

  /** What the guards and effects leave for the payment: the amount is reserved in the epoch's account,
      a signed nonce is spoken for, and nothing has moved. */
  ghost predicate Reserved(k: Config, s: State, p: Plan, time: nat)
    requires Sane(k)
  {
    && p.state.log == s.log && p.state.balances == s.balances && Current(k, p.state, time)
    && s.currentEpoch <= p.state.currentEpoch
    && (p.state.currentEpoch < EpochOf(k, time) ==>
          p.state.currentEpoch == s.currentEpoch && p.state.epochSpent == s.epochSpent)
    && p.state.nonceUsed == s.nonceUsed + (if p.entry.Spent? && !p.entry.viaFallback then {p.entry.nonce} else {})
    && (p.entry.Spent? && !p.entry.viaFallback ==> p.entry.nonce !in s.nonceUsed)
    && Rolled(p.state, EpochOf(k, time)) == Rolled(s, EpochOf(k, time)) + SpentBy(p.entry)
    && (p.locks ==> !s.entered && (!k.guarded ==> !p.state.entered)) && (!p.locks ==> p.state.entered == s.entered)
    && (p.entry.Spent? ==> Rolled(p.state, EpochOf(k, time)) <= k.epochBudget && p.entry.time == time)
    && (forall token :: Flow(k, p.entry, token)
          == if token == p.token && p.party != k.self then (if p.outward then 0 - p.amount else p.amount) else 0)
  }

  lemma MoveBegins(k: Config, s: State, sender: Address, op: Op, time: nat)
    requires Sane(k) && Current(k, s, time) && Begin(k, s, sender, op, time).Move?
    ensures Reserved(k, s, Begin(k, s, sender, op, time).plan, time)
  {
    hide EpochOf;
  }

  lemma CurrentAfter(k: Config, s: State, ready: State, moved: State, p: Plan, first: seq<Entry>, time: nat)
    requires Sane(k) && Sound(k, s, ready, first, time) && Moved(k, ready, p) == Some(moved)
    ensures Current(k, moved, time)
  {
    hide EpochOf, Net;
  }

  /** Calls before the move, the move, calls after it and the event add up to a sound payment, because the
      nonce and the amount were on record before the first of those calls. */
  lemma PaymentSound(k: Config, s: State, p: Plan, first: seq<Entry>, ready: State,
                     second: seq<Entry>, done: State, time: nat)
    requires Sane(k) && Reserved(k, s, p, time)
    requires Sound(k, p.state, ready, first, time) && Moved(k, ready, p).Some?
    requires Sound(k, Moved(k, ready, p).value, done, second, time)
    ensures Sound(k, s, Finish(k, done, p), first + second + [p.entry], time)
  {
    MovedOnlyBalances(k, ready, p);
    hide EpochOf, Net, Flow, SpentTotal, PaidOn, NoReplay, Fresh, Recorded, Moved, At;
    var moved := Moved(k, ready, p).value;
    var inner := first + second;
    var events := inner + [p.entry];
    assert s.log + first + second + [p.entry] == s.log + events;
    BalancesAdd(k, s, p, first, ready, second, done, time);
    SpentConcat(first, second);
    SpentConcat(inner, [p.entry]);
    SpentOne(p.entry);
    NoncesPayOnce(s.nonceUsed, p, first, ready.nonceUsed, second, done.nonceUsed);
  }

  lemma MovedOnlyBalances(k: Config, s: State, p: Plan)
    requires Moved(k, s, p).Some?
    ensures var n := Moved(k, s, p).value; n == s.(balances := n.balances)
  {
  }

  lemma BalancesAdd(k: Config, s: State, p: Plan, first: seq<Entry>, ready: State,
                    second: seq<Entry>, done: State, time: nat)
    requires Sane(k) && Reserved(k, s, p, time)
    requires Sound(k, p.state, ready, first, time) && Moved(k, ready, p).Some?
    requires Sound(k, Moved(k, ready, p).value, done, second, time)
    ensures forall token :: At(done.balances, token) == At(s.balances, token) + Net(k, first + second + [p.entry], token)
  {
    hide EpochOf, Net, Flow, SpentTotal, PaidOn, NoReplay, Fresh, Recorded, Rolled;
    var moved := Moved(k, ready, p).value;
    forall token
      ensures At(done.balances, token) == At(s.balances, token) + Net(k, first + second + [p.entry], token)
    {
      NetConcat(k, first, second, token);
      NetConcat(k, first + second, [p.entry], token);
      NetOne(k, p.entry, token);
      assert At(moved.balances, token) == At(ready.balances, token) + Flow(k, p.entry, token);
    }
  }

  lemma NetOne(k: Config, e: Entry, token: Address)
    ensures Net(k, [e], token) == Flow(k, e, token)
  {
    assert [e][..0] == [];
  }

  lemma SpentOne(e: Entry)
    ensures SpentTotal([e]) == SpentBy(e)
  {
    assert [e][..0] == [];
  }

  lemma NoncesPayOnce(used: set<nat>, p: Plan, first: seq<Entry>, usedThen: set<nat>, second: seq<Entry>, usedLast: set<nat>)
    requires p.state.nonceUsed == used + (if p.entry.Spent? && !p.entry.viaFallback then {p.entry.nonce} else {})
    requires p.entry.Spent? && !p.entry.viaFallback ==> p.entry.nonce !in used
    requires NoReplay(first) && Fresh(first, p.state.nonceUsed) && Recorded(first, usedThen)
    requires NoReplay(second) && Fresh(second, usedThen) && Recorded(second, usedLast)
    requires p.state.nonceUsed <= usedThen <= usedLast
    ensures NoReplay(first + second + [p.entry])
    ensures Fresh(first + second + [p.entry], used) && Recorded(first + second + [p.entry], usedLast)
  {
    NoReplayConcat(first, second, usedThen);
    var inner := first + second;
    forall i | 0 <= i < |inner| && inner[i].Spent? && !inner[i].viaFallback
      ensures !PaidOn(p.entry, inner[i].nonce)
    {
      assert inner[i] in first || inner[i] in second;
    }
  }

  // ---------------------------------------------------------------- every run

  function SpentIn(k: Config, log: seq<Entry>, epoch: nat): nat
    requires Sane(k)
  {
    if log == [] then 0
    else
      var last := log[|log| - 1];
      SpentIn(k, log[..|log| - 1], epoch) + if last.Spent? && EpochOf(k, last.time) == epoch then last.amount else 0
  }

  lemma {:induction false} SpentInGrows(k: Config, log: seq<Entry>, events: seq<Entry>, time: nat, epoch: nat)
    requires Sane(k) && forall e <- events :: e.Spent? ==> e.time == time
    ensures SpentIn(k, log + events, epoch)
            == SpentIn(k, log, epoch) + if epoch == EpochOf(k, time) then SpentTotal(events) else 0
    decreases |events|
  {
    hide EpochOf;
    if events == [] {
      assert log + events == log;
    } else {
      var fewer := events[..|events| - 1];
      assert (log + events)[..|log + events| - 1] == log + fewer;
      assert events[|events| - 1] in events;
      SpentInGrows(k, log, fewer, time, epoch);
    }
  }

  lemma EpochsInOrder(k: Config, earlier: nat, later: nat)
    requires Sane(k) && earlier <= later
    ensures EpochOf(k, earlier) <= EpochOf(k, later)
  {
    if earlier >= k.epochGenesis { QuotientsInOrder(earlier - k.epochGenesis, later - k.epochGenesis, k.epochLen); }
  }

  lemma QuotientsInOrder(a: nat, b: nat, d: nat)
    requires a <= b && d > 0
    ensures a / d <= b / d
  {
    var q, r := a / d, b / d;
    assert a == q * d + a % d && b == r * d + b % d;
    assert q > r ==> q * d >= (r + 1) * d == r * d + d;
  }

  datatype Sent = Sent(call: Call, time: nat)

  predicate InOrder(history: seq<Sent>) {
    forall i, j | 0 <= i <= j < |history| :: history[i].time <= history[j].time
  }

  function Run(k: Config, s: State, history: seq<Sent>): State
    requires Sane(k)
  {
    if history == [] then s
    else
      var last := history[|history| - 1];
      Exec(k, Run(k, s, history[..|history| - 1]), last.call, last.time).state
  }

  /** A vault as its constructor leaves it; tokens may have been sent to its address before. */
  predicate Constructed(s: State) {
    s.log == [] && s.nonceUsed == {} && s.currentEpoch == 0 && s.epochSpent == 0 && !s.entered
  }

  /** The books of a vault: balances, nonces and the budget of every epoch. */
  ghost predicate Books(k: Config, start: State, s: State)
    requires Sane(k)
  {
    && (forall token :: At(s.balances, token) == At(start.balances, token) + Net(k, s.log, token))
    && NoReplay(s.log) && Recorded(s.log, s.nonceUsed)
    && s.epochSpent <= k.epochBudget && SpentIn(k, s.log, s.currentEpoch) == s.epochSpent
    && (forall epoch: nat :: SpentIn(k, s.log, epoch) <= if epoch > s.currentEpoch then 0 else k.epochBudget)
    && !s.entered
  }

  lemma SoundKeepsBooks(k: Config, start: State, s: State, n: State, events: seq<Entry>, time: nat)
    requires Sane(k) && Books(k, start, s) && Sound(k, s, n, events, time)
    ensures Books(k, start, n)
  {
    hide EpochOf, Net, SpentTotal, SpentIn, PaidOn, NoReplay;
    forall token
      ensures At(n.balances, token) == At(start.balances, token) + Net(k, n.log, token)
    {
      NetConcat(k, s.log, events, token);
    }
    NoReplayConcat(s.log, events, s.nonceUsed);
    forall epoch: nat
      ensures SpentIn(k, n.log, epoch) == SpentIn(k, s.log, epoch) + if epoch == EpochOf(k, time) then SpentTotal(events) else 0
    {
      SpentInGrows(k, s.log, events, time, epoch);
    }
  }

  /** Over every history of calls, with any sender, any nesting and any token behaviour: every balance is
      what it was plus the flow of the events, no signed nonce paid twice, no epoch's spends of both kinds
      exceed the budget, and the mutex is free again. It holds of the contract without its reentrancy
      guard too: marking the nonce and the budget before calling the token is what it rests on. */
  lemma {:induction false} BooksBalance(k: Config, start: State, history: seq<Sent>)
    requires Sane(k) && Constructed(start) && InOrder(history)
    ensures Books(k, start, Run(k, start, history))
    ensures history != [] ==> Current(k, Run(k, start, history), history[|history| - 1].time)
    decreases |history|
  {
    hide EpochOf, Exec, Sound;
    if history == [] {
      assert forall token :: Net(k, [], token) == 0;
      assert forall epoch: nat :: SpentIn(k, [], epoch) == 0;
    } else {
      var n := |history| - 1;
      var earlier := history[..n];
      assert forall i, j | 0 <= i <= j < n :: earlier[i].time <= earlier[j].time;
      BooksBalance(k, start, earlier);
      var s, last := Run(k, start, earlier), history[n];
      if earlier != [] { EpochsInOrder(k, history[n - 1].time, last.time); }
      var events := ExecSound(k, s, last.call, last.time);
      SoundKeepsBooks(k, start, s, Run(k, start, history), events, last.time);
      SoundIsCurrent(k, s, Run(k, start, history), events, last.time);
    }
  }

  /** What left in n epochs from a given one. */
  function SpentOver(k: Config, log: seq<Entry>, epoch: nat, n: nat): nat
    requires Sane(k)
  {
    if n == 0 then 0 else SpentOver(k, log, epoch, n - 1) + SpentIn(k, log, epoch + n - 1)
  }

  /** At most n budgets over n epochs. */
  lemma {:induction false} WindowBounded(k: Config, start: State, history: seq<Sent>, epoch: nat, n: nat)
    requires Sane(k) && Constructed(start) && InOrder(history)
    ensures SpentOver(k, Run(k, start, history).log, epoch, n) <= n * k.epochBudget
  {
    hide Run, SpentIn, Net, NoReplay;
    if n > 0 {
      WindowBounded(k, start, history, epoch, n - 1);
      BooksBalance(k, start, history);
      assert n * k.epochBudget == (n - 1) * k.epochBudget + k.epochBudget;
    }
  }

  /** The fixed bounds of every way in and out: a payment on a signature is within the cap, one from the
      allowlist is not empty, both fit the budget and are in a listed token. */
  predicate InBounds(k: Config, e: Entry) {
    match e
    case Deposited(t, _, amount) => t in k.tokens && amount > 0
    case Gifted(_, _) => true
    case Spent(_, t, _, amount, _, viaFallback, _) =>
      t in k.tokens && amount <= k.epochBudget && if viaFallback then amount > 0 else amount <= k.perTxCap
    case Withdrawn(_, to, _) => to != NOBODY
  }

  predicate AllInBounds(k: Config, log: seq<Entry>) {
    forall e <- log :: InBounds(k, e)
  }

  lemma {:induction false} ExecInBounds(k: Config, s: State, c: Call, time: nat)
    requires Sane(k) && AllInBounds(k, s.log)
    ensures AllInBounds(k, Exec(k, s, c, time).state.log)
    decreases c
  {
    hide EpochOf, InBounds, ExecAll;
    var step := Begin(k, s, c.sender, c.op, time);
    if step.Move? && Exec(k, s, c, time).error == None {
      BeginInBounds(k, s, c.sender, c.op, time);
      ExecAllInBounds(k, step.plan.state, c.before, time);
      ExecAllInBounds(k, Moved(k, ExecAll(k, step.plan.state, c.before, time), step.plan).value, c.after, time);
    } else if step.Settle? && c.op.Gift? {
      assert InBounds(k, Gifted(c.op.token, c.op.amount)) by { BeginInBounds(k, s, c.sender, c.op, time); }
    }
  }

  lemma BeginInBounds(k: Config, s: State, sender: Address, op: Op, time: nat)
    requires Sane(k)
    ensures var step := Begin(k, s, sender, op, time);
            step.Move? ==> InBounds(k, step.plan.entry) && step.plan.state.log == s.log
    ensures op.Gift? ==> InBounds(k, Gifted(op.token, op.amount))
  {
    hide EpochOf;
  }

  lemma {:induction false} ExecAllInBounds(k: Config, s: State, cs: seq<Call>, time: nat)
    requires Sane(k) && AllInBounds(k, s.log)
    ensures AllInBounds(k, ExecAll(k, s, cs, time).log)
    decreases cs
  {
    hide Exec, InBounds;
    if cs != [] {
      ExecInBounds(k, s, cs[0], time);
      ExecAllInBounds(k, Exec(k, s, cs[0], time).state, cs[1..], time);
    }
  }

  /** In every history each event is within the bounds of its kind, nested calls included. */
  lemma {:induction false} RunInBounds(k: Config, start: State, history: seq<Sent>)
    requires Sane(k) && start.log == []
    ensures AllInBounds(k, Run(k, start, history).log)
    decreases |history|
  {
    hide Exec, InBounds;
    if history != [] {
      var n := |history| - 1;
      RunInBounds(k, start, history[..n]);
      ExecInBounds(k, Run(k, start, history[..n]), history[n].call, history[n].time);
    }
  }

  // ---------------------------------------------------------------- the master equation

  /** The equation's right-hand side, deposits minus everything paid out, event by event. */
  function OnPaper(k: Config, e: Entry, token: Address): int {
    match e
    case Deposited(t, from, amount) => Flow(k, e, token)
    case Gifted(_, _) => 0
    case Spent(_, t, _, amount, _, _, _) => if t == token then 0 - amount else 0
    case Withdrawn(t, _, amount) => if t == token then 0 - amount else 0
  }

  function PaperTotal(k: Config, log: seq<Entry>, token: Address): int {
    if log == [] then 0 else PaperTotal(k, log[..|log| - 1], token) + OnPaper(k, log[|log| - 1], token)
  }

  /** Tokens the equation misses: gifts, and payments the vault made to itself. */
  predicate Missed(k: Config, e: Entry, token: Address) {
    match e
    case Deposited(_, _, _) => false
    case Gifted(t, amount) => t == token && amount > 0
    case Spent(to, t, _, amount, _, _, _) => t == token && to == k.self && amount > 0
    case Withdrawn(t, to, amount) => t == token && to == k.self && amount > 0
  }

  lemma PaperAndFlow(k: Config, e: Entry, token: Address)
    ensures OnPaper(k, e, token) <= Flow(k, e, token)
    ensures OnPaper(k, e, token) == Flow(k, e, token) <==> !Missed(k, e, token)
  {
  }

  lemma {:induction false} PaperVersusFlow(k: Config, log: seq<Entry>, token: Address)
    ensures PaperTotal(k, log, token) <= Net(k, log, token)
    ensures PaperTotal(k, log, token) == Net(k, log, token) <==> forall e <- log :: !Missed(k, e, token)
  {
    hide Missed, Flow, OnPaper;
    if log != [] {
      var fewer, last := log[..|log| - 1], log[|log| - 1];
      PaperVersusFlow(k, fewer, token);
      assert log == fewer + [last];
      assert forall e :: e in log <==> e in fewer || e == last;
      PaperAndFlow(k, last, token);
    }
  }

  /** The vault's master equation, balance = deposits - outflow, never overstates the balance, and holds
      exactly when nobody sent the token without depositing it and no payment was made to the vault. */
  lemma MasterEquation(k: Config, start: State, history: seq<Sent>, token: Address)
    requires Sane(k) && Constructed(start) && InOrder(history)
    ensures var s := Run(k, start, history);
            var expected := At(start.balances, token) + PaperTotal(k, s.log, token);
            && expected <= At(s.balances, token)
            && (expected == At(s.balances, token) <==> forall e <- s.log :: !Missed(k, e, token))
  {
    hide Run, Missed;
    BooksBalance(k, start, history);
    PaperVersusFlow(k, Run(k, start, history).log, token);
  }

  // ---------------------------------------------------------------- who can move what

  /** A spend on a valid, unexpired, unused signature of the oracle, within caps, in a listed token, for an
      approved intent where one is required, while the vault is not paused. */
  predicate SignedFor(k: Config, s: State, op: Op, time: nat)
    requires Sane(k)
  {
    && op.Spend? && !s.paused && op.signer == Some(s.oracle) && time <= op.expiry && op.nonce !in s.nonceUsed
    && op.amount <= k.perTxCap && Rolled(s, EpochOf(k, time)) + op.amount <= k.epochBudget
    && op.token in k.tokens && (k.requireAnchoredIntent ==> op.usable == Some(true))
  }

  /** Nothing in the call or inside it comes from the owner or the pending owner or is signed for. */
  predicate Powerless(k: Config, s: State, c: Call, time: nat)
    requires Sane(k)
    decreases c
  {
    && c.sender != s.owner && c.sender != s.pendingOwner && !SignedFor(k, s, c.op, time)
    && (forall d <- c.before :: Powerless(k, s, d, time)) && (forall d <- c.after :: Powerless(k, s, d, time))
  }

  predicate PowerlessAll(k: Config, s: State, cs: seq<Call>, time: nat)
    requires Sane(k)
  {
    forall d <- cs :: Powerless(k, s, d, time)
  }

  /** Nothing but balances and the log has changed, and no balance has gone down. */
  ghost predicate OnlyIn(s: State, n: State) {
    && n == s.(balances := n.balances, log := n.log)
    && forall token :: At(s.balances, token) <= At(n.balances, token)
  }

  /** Who is powerless depends on the settings and the accounts alone. */
  predicate SameSettings(s: State, n: State) {
    n == s.(balances := n.balances, log := n.log, entered := n.entered)
  }

  lemma {:induction false} StillPowerless(k: Config, s: State, n: State, c: Call, time: nat)
    requires Sane(k) && SameSettings(s, n) && Powerless(k, s, c, time)
    ensures Powerless(k, n, c, time)
    decreases c
  {
    hide EpochOf;
    StillPowerlessAll(k, s, n, c.before, time);
    StillPowerlessAll(k, s, n, c.after, time);
  }

  lemma {:induction false} StillPowerlessAll(k: Config, s: State, n: State, cs: seq<Call>, time: nat)
    requires Sane(k) && SameSettings(s, n) && PowerlessAll(k, s, cs, time)
    ensures PowerlessAll(k, n, cs, time)
    decreases cs, 0
  {
    hide Powerless, SameSettings;
    forall d <- cs
      ensures Powerless(k, n, d, time)
    {
      StillPowerless(k, s, n, d, time);
    }
  }

  lemma PowerlessInside(k: Config, s: State, c: Call, time: nat)
    requires Sane(k) && Powerless(k, s, c, time)
    ensures c.sender != s.owner && c.sender != s.pendingOwner && !SignedFor(k, s, c.op, time)
    ensures PowerlessAll(k, s, c.before, time) && PowerlessAll(k, s, c.after, time)
  {
  }

  /** The master invariant: unless a call or one inside it comes from the owner or the pending owner, or is a
      spend with everything a spend needs, nothing leaves the vault and no setting changes, whatever calls are
      nested in whatever way. */
  lemma {:induction false} PowerlessTakesNothing(k: Config, s: State, c: Call, time: nat)
    requires Sane(k) && Powerless(k, s, c, time)
    ensures OnlyIn(s, Exec(k, s, c, time).state)
    decreases c
  {
    hide EpochOf, ExecAll, Powerless;
    var step := Begin(k, s, c.sender, c.op, time);
    PowerlessInside(k, s, c, time);
    if step.Move? && Exec(k, s, c, time).error == None {
      var p := step.plan;
      assert !p.outward && (p.state == s || p.state == Lock(k, s));
      StillPowerlessAll(k, s, p.state, c.before, time);
      PowerlessAllTakeNothing(k, p.state, c.before, time);
      var moved := Moved(k, ExecAll(k, p.state, c.before, time), p).value;
      StillPowerlessAll(k, s, moved, c.after, time);
      PowerlessAllTakeNothing(k, moved, c.after, time);
    }
  }

  lemma {:induction false} PowerlessAllTakeNothing(k: Config, s: State, cs: seq<Call>, time: nat)
    requires Sane(k) && PowerlessAll(k, s, cs, time)
    ensures OnlyIn(s, ExecAll(k, s, cs, time))
    decreases cs
  {
    hide Exec, Powerless;
    if cs != [] {
      assert cs[0] in cs;
      PowerlessTakesNothing(k, s, cs[0], time);
      StillPowerlessAll(k, s, Exec(k, s, cs[0], time).state, cs[1..], time);
      PowerlessAllTakeNothing(k, Exec(k, s, cs[0], time).state, cs[1..], time);
    }
  }

  /** The same over a history. */
  lemma {:induction false} PowerlessHistoryTakesNothing(k: Config, s: State, history: seq<Sent>)
    requires Sane(k) && forall h <- history :: Powerless(k, s, h.call, h.time)
    ensures OnlyIn(s, Run(k, s, history))
    decreases |history|
  {
    hide Exec, Powerless;
    if history != [] {
      var earlier, last := history[..|history| - 1], history[|history| - 1];
      PowerlessHistoryTakesNothing(k, s, earlier);
      StillPowerless(k, s, Run(k, s, earlier), last.call, last.time);
      PowerlessTakesNothing(k, Run(k, s, earlier), last.call, last.time);
    }
  }

  /** While the mutex is taken, nested calls can neither pay on a signature nor spend from the budget. */
  lemma {:induction false} MutexFreezesSpending(k: Config, s: State, c: Call, time: nat)
    requires Sane(k) && k.guarded && s.entered
    ensures var n := Exec(k, s, c, time).state;
            n.entered && n.nonceUsed == s.nonceUsed && n.currentEpoch == s.currentEpoch && n.epochSpent == s.epochSpent
    ensures c.op.Spend? || c.op.SpendFallback? || c.op.Deposit? ==> Exec(k, s, c, time) == Outcome(s, Some(Reentrancy))
    decreases c
  {
    hide EpochOf, ExecAll;
    var step := Begin(k, s, c.sender, c.op, time);
    if step.Move? && Exec(k, s, c, time).error == None {
      MutexFreezesAll(k, step.plan.state, c.before, time);
      MutexFreezesAll(k, Moved(k, ExecAll(k, step.plan.state, c.before, time), step.plan).value, c.after, time);
    }
  }

  lemma {:induction false} MutexFreezesAll(k: Config, s: State, cs: seq<Call>, time: nat)
    requires Sane(k) && k.guarded && s.entered
    ensures var n := ExecAll(k, s, cs, time);
            n.entered && n.nonceUsed == s.nonceUsed && n.currentEpoch == s.currentEpoch && n.epochSpent == s.epochSpent
    decreases cs
  {
    hide Exec;
    if cs != [] {
      MutexFreezesSpending(k, s, cs[0], time);
      MutexFreezesAll(k, Exec(k, s, cs[0], time).state, cs[1..], time);
    }
  }

  /** The escape hatch: for the owner and a token that pays, neither a pause nor a taken mutex nor the
      allowlist stands in the way of a withdrawal the balance covers. */
  lemma OwnerCanAlwaysWithdraw(k: Config, s: State, token: Address, to: Address, amount: nat, time: nat)
    requires Sane(k) && to != NOBODY
    ensures Exec(k, s, Call(s.owner, OwnerWithdraw(token, to, amount), [], [], true), time).error == None
            <==> amount <= At(s.balances, token)
  {
    assert ExecAll(k, s, [], time) == s;
  }
}
