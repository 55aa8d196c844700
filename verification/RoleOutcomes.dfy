/** Every call on the two writer sets, outcome by outcome: when it is refused and why, and what it changes. */
module RoleOutcomes {
  import opened Wrappers
  import opened Timelock
  import opened Deployment

  // ---------------------------------------------------------------- the mutators

  /** Exactly this of the roles changes: whether one address is a writer. */
  ghost predicate OnlyWriter(r: Roles, n: Roles, address: Address) {
    n.admin == r.admin && forall a: Address | a != address :: a in n.writers <==> a in r.writers
  }

  ghost predicate OnlyAdmin(r: Roles, n: Roles) {
    forall a: Address :: a in n.writers <==> a in r.writers
  }

  /** What a change of roles is refused for, if at all. */
  function RefusalOf(r: Roles, kind: OpKind, target: Address): Option<Error> {
    if kind == REMOVE_WRITER then if target in r.writers then None else Some(NotAuthorizedWriter)
    else if target == 0 then Some(ZeroAddress)
    else if kind == ADD_WRITER && target in r.writers then Some(AlreadyWriter)
    else None
  }

  /** What it does otherwise. */
  ghost predicate Changes(r: Roles, n: Roles, kind: OpKind, target: Address) {
    match kind
    case ADD_WRITER => target in n.writers && OnlyWriter(r, n, target)
    case REMOVE_WRITER => target !in n.writers && OnlyWriter(r, n, target)
    case _ => n.admin == target && OnlyAdmin(r, n)
  }

  lemma EffectOutcome(r: Roles, op: Op)
    ensures match RefusalOf(r, op.kind, op.target)
            case Some(e) => Effect(r, op) == Err(e)
            case None => Effect(r, op).Ok? && Changes(r, Effect(r, op).value, op.kind, op.target)
  {
  }

  /** Each change is determined by this. */
  lemma ChangesDetermine(r: Roles, n: Roles, m: Roles, kind: OpKind, target: Address)
    requires Changes(r, n, kind, target) && Changes(r, m, kind, target)
    ensures n == m
  {
    forall a: Address
      ensures a in n.writers <==> a in m.writers
    {
      if a != target { assert a in n.writers <==> a in r.writers; }
    }
    assert n.writers == m.writers;
  }

  function KindOf(call: RegistryCall): OpKind {
    match call
    case AddCall(_) => ADD_WRITER
    case RemoveCall(_) => REMOVE_WRITER
    case TransferCall(_) => TRANSFER_ADMIN
  }

  /** The registry's admin is immediate: a call by anyone else is refused for that, one by the admin for what
      its change is refused for, and otherwise the change is made. */
  lemma RegistryOutcome(r: Roles, sender: Address, call: RegistryCall)
    ensures RegistryCalled(r, sender, call) == Err(NotAdmin) <==> sender != r.admin
    ensures sender == r.admin ==>
              match RefusalOf(r, KindOf(call), call.target)
              case Some(e) => RegistryCalled(r, sender, call) == Err(e)
              case None =>
                && RegistryCalled(r, sender, call).Ok?
                && Changes(r, RegistryCalled(r, sender, call).value, KindOf(call), call.target)
  {
  }

  // ---------------------------------------------------------------- the timelock

  /** Of what is pending only this one operation may have changed. */
  ghost predicate OnlyPending(b: Board, n: Board, op: Op) {
    && n.delay == b.delay
    && forall o: Op | o != op :: (o in n.eta <==> o in b.eta) && (o in b.eta ==> n.eta[o] == b.eta[o])
  }

  /** A refused call changes nothing. */
  lemma RefusedChangesNothing(b: Board, sender: Address, time: nat, call: Call)
    ensures Invoke(b, sender, time, call).error.Some? ==> Invoke(b, sender, time, call).board == b
  {
    hide Effect;
  }

  /** What each call is refused for: the first of these that applies, in the order of the modifiers and
      statements of the contract. */
  function ProposeRefusal(b: Board, sender: Address, time: nat, op: Op): Option<Error> {
    if sender != b.roles.admin then Some(NotAdmin)
    else if op.kind == NONE then Some(InvalidOpKind)
    else if op.target == 0 then Some(ZeroAddress)
    else if op in b.eta then Some(OpAlreadyPending)
    else if time % U64 + b.delay >= U64 then Some(ArithmeticOverflow)
    else None
  }

  function ExecuteRefusal(b: Board, sender: Address, time: nat, op: Op): Option<Error> {
    if sender != b.roles.admin then Some(NotAdmin)
    else if op !in b.eta then Some(OpNotFound)
    else if time % U64 < b.eta[op] then Some(TimelockNotElapsed)
    else RefusalOf(b.roles, op.kind, op.target)
  }

  function CancelRefusal(b: Board, sender: Address, op: Op): Option<Error> {
    if sender != b.roles.admin then Some(NotAdmin) else if op !in b.eta then Some(OpNotFound) else None
  }

  /** A proposal that is not refused makes the operation pending, its eta the delay after the block, and changes
      no role. */
  lemma ProposeOutcome(b: Board, sender: Address, time: nat, op: Op)
    ensures var out := Invoke(b, sender, time, ProposeCall(op));
            && out.error == ProposeRefusal(b, sender, time, op)
            && (out.error == None ==>
                  && op in out.board.eta && out.board.eta[op] == time % U64 + b.delay
                  && OnlyPending(b, out.board, op) && out.board.roles == b.roles)
  {
  }

  /** An execution that is not refused uses up the operation and makes the change it stands for. */
  lemma ExecuteOutcome(b: Board, sender: Address, time: nat, op: Op)
    ensures var out := Invoke(b, sender, time, ExecuteCall(op));
            && out.error == ExecuteRefusal(b, sender, time, op)
            && (out.error == None ==>
                  && op !in out.board.eta && OnlyPending(b, out.board, op)
                  && Changes(b.roles, out.board.roles, op.kind, op.target))
  {
    hide Effect, RefusalOf, Changes;
    EffectOutcome(b.roles, op);
  }

  /** A cancellation that is not refused leaves the operation no longer pending, and everything else alone. */
  lemma CancelOutcome(b: Board, sender: Address, time: nat, op: Op)
    ensures var out := Invoke(b, sender, time, CancelCall(op));
            && out.error == CancelRefusal(b, sender, op)
            && (out.error == None ==>
                  op !in out.board.eta && OnlyPending(b, out.board, op) && out.board.roles == b.roles)
  {
  }

  /** Proposing and then cancelling puts everything back. */
  lemma CancelUndoes(b: Board, sender: Address, time: nat, later: nat, op: Op)
    requires Invoke(b, sender, time, ProposeCall(op)).error == None
    ensures var proposed := Invoke(b, sender, time, ProposeCall(op)).board;
            Invoke(proposed, sender, later, CancelCall(op)) == Outcome(b, None)
  {
    assert b.eta[op := Now64(time) + b.delay] - {op} == b.eta;
  }

  /** An executed removal takes the role away, and the writer can only come back by another proposal. */
  lemma RemovedIsNoWriter(b: Board, sender: Address, time: nat, target: Address)
    requires Invoke(b, sender, time, ExecuteCall(Op(REMOVE_WRITER, target))).error == None
    ensures var n := Invoke(b, sender, time, ExecuteCall(Op(REMOVE_WRITER, target))).board;
            target in b.roles.writers && n.roles.writers == b.roles.writers - {target} && n.roles.admin == b.roles.admin
  {
    var n := Invoke(b, sender, time, ExecuteCall(Op(REMOVE_WRITER, target))).board;
    ExecuteOutcome(b, sender, time, Op(REMOVE_WRITER, target));
    forall a: Address
      ensures a in n.roles.writers <==> a in b.roles.writers - {target}
    {
    }
  }

  // ---------------------------------------------------------------- runs

  /** A run is its calls one after the other: the last one acts on what the ones before it left. */
  lemma RunByRun(start: Board, txs: seq<Timelock.Tx>, last: Timelock.Tx)
    ensures Timelock.At(start, [], 0) == start
    ensures Timelock.At(start, txs + [last], |txs| + 1)
            == Invoke(Timelock.At(start, txs, |txs|), last.sender, last.time, last.call).board
  {
    hide Invoke;
    SameSoFar(start, txs, last, |txs|);
  }

  lemma {:induction false} SameSoFar(start: Board, txs: seq<Timelock.Tx>, last: Timelock.Tx, n: nat)
    requires n <= |txs|
    ensures Timelock.At(start, txs + [last], n) == Timelock.At(start, txs, n)
  {
    hide Invoke;
    if n > 0 { SameSoFar(start, txs, last, n - 1); }
  }

  /** What others do before a step of the script, one transaction after the other, each on its contract and at
      the time before the step. */
  lemma OthersOneByOne(w: World, txs: seq<OtherTx>, last: OtherTx)
    ensures Others(w, []) == w
    ensures var before, after := Others(w, txs), Others(w, txs + [last]);
            match last
            case OnReceipts(sender, call) => after == before.(receipts := Invoke(before.receipts, sender, before.now, call).board)
            case OnRegistry(sender, call) =>
              var r := RegistryCalled(before.registry, sender, call);
              after == if r.Ok? then before.(registry := r.value) else before
  {
    hide Invoke, RegistryCalled;
    assert (txs + [last])[..|txs|] == txs;
  }

  /** Then time passes. */
  lemma SlotWaits(w: World, slot: Slot)
    ensures var after := Passed(w, slot);
            && after.now == Others(w, slot.others).now + slot.wait
            && after.registry == Others(w, slot.others).registry && after.receipts == Others(w, slot.others).receipts
  {
    hide Others;
  }

  /** The two proposals of phase 1 are the script's third and fourth transactions. */
  function Waits(slots: seq<Slot>): nat {
    if slots == [] then 0 else Waits(slots[..|slots| - 1]) + slots[|slots| - 1].wait
  }

  lemma ProposalTimes(start: nat, slots: seq<Slot>)
    requires |slots| == 5
    ensures FirstProposal(start, slots) == start + Waits(slots[..3])
    ensures SecondProposal(start, slots) == start + Waits(slots[..4])
  {
    assert slots[..4][..3] == slots[..3] && slots[..3][..2] == slots[..2] && slots[..2][..1] == slots[..1];
    assert Waits(slots[..1]) == slots[0].wait && Waits(slots[..2]) == slots[0].wait + slots[1].wait;
    assert Waits(slots[..3]) == slots[0].wait + slots[1].wait + slots[2].wait;
  }

  // ---------------------------------------------------------------- phase 2, from any state

  /** The five people are five. */
  lemma DistinctMeans(p: People)
    ensures var all := [p.deployer, p.owner, p.admin, p.writer, p.oracle];
            AllDistinct(p) <==> forall i, j | 0 <= i < j < 5 :: all[i] != all[j]
  {
    var all := [p.deployer, p.owner, p.admin, p.writer, p.oracle];
    if forall i, j | 0 <= i < j < 5 :: all[i] != all[j] {
      assert all[0] != all[1] && all[0] != all[2] && all[0] != all[3] && all[0] != all[4];
      assert all[1] != all[2] && all[1] != all[3] && all[1] != all[4];
      assert all[2] != all[3] && all[2] != all[4] && all[3] != all[4];
    }
  }

  /** What stops phase 2, on any chain and with any artifact: the first of these, in the order of the script. */
  function StopOf(w: World, a: Artifact, deployer: Address, t0: nat, t1: nat, t2: nat): Option<Stop> {
    var p := a.people;
    var add := ExecuteRefusal(w.receipts, deployer, t1, Op(ADD_WRITER, p.writer));
    if p.deployer != deployer then Some(NotPhaseOneKey)
    else if w.receipts.roles.admin != deployer then Some(AdminAlreadyMoved)
    else if t0 < a.eta then Some(TooEarly)
    else if add.Some? then Some(Reverted(add.value))
    else
      var move := ExecuteRefusal(w.receipts, deployer, t2, Op(TRANSFER_ADMIN, p.admin));
      if move.Some? then Some(Reverted(move.value))
      else if deployer in w.receipts.roles.writers || deployer == p.writer
              || w.registry.admin != p.admin || p.writer !in w.registry.writers then Some(ReadbackMismatch)
      else None
  }

  /** And what it leaves: the receipts as they were when it stopped before or at the first execution, that one
      carried out when it stopped at the second, and both otherwise; the registry it only reads. */
  lemma PhaseTwoOutcome(w: World, a: Artifact, deployer: Address, t0: nat, t1: nat, t2: nat)
    ensures var (end, r) := PhaseTwoRun(w, a, deployer, t0, t1, t2);
            var add, move := Op(ADD_WRITER, a.people.writer), Op(TRANSFER_ADMIN, a.people.admin);
            var stop := StopOf(w, a, deployer, t0, t1, t2);
            var added := Invoke(w.receipts, deployer, t1, ExecuteCall(add)).board;
            && r == (if stop.Some? then Err(stop.value) else Ok(()))
            && end.registry == w.registry && end.now == w.now
            && end.receipts ==
                 if a.people.deployer != deployer || t0 < a.eta || ExecuteRefusal(w.receipts, deployer, t1, add).Some? then w.receipts
                 else if ExecuteRefusal(w.receipts, deployer, t2, move).Some? then added
                 else Invoke(added, deployer, t2, ExecuteCall(move)).board
  {
  }
}
