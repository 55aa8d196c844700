/** The writer allowlist with an immediate admin (SpendIntentRegistry.sol) and the same allowlist behind
    a timelock (UntchReceipts.sol), both over AuthorizedWriters.sol. */
module Timelock {
  import opened Wrappers

  type Address = nat

  const NOBODY: Address := 0

  const U64: nat := 0x1_0000_0000_0000_0000

  datatype OpKind = NONE | ADD_WRITER | REMOVE_WRITER | TRANSFER_ADMIN

  /** opId hashes kind and target; the hash is taken to be injective, so the pair stands for it. */
  datatype Op = Op(kind: OpKind, target: Address)

  datatype Error =
    | NotAdmin | ZeroAddress | AlreadyWriter | NotAuthorizedWriter
    | InvalidOpKind | OpAlreadyPending | OpNotFound | TimelockNotElapsed | ArithmeticOverflow

  /** The storage of AuthorizedWriters. */
  datatype Roles = Roles(admin: Address, writers: set<Address>)

  function WriterAdded(r: Roles, writer: Address): Result<Roles, Error> {
    if writer == NOBODY then Err(ZeroAddress)
    else if writer in r.writers then Err(AlreadyWriter)
    else Ok(r.(writers := r.writers + {writer}))
  }

  function WriterRemoved(r: Roles, writer: Address): Result<Roles, Error> {
    if writer !in r.writers then Err(NotAuthorizedWriter) else Ok(r.(writers := r.writers - {writer}))
  }

  function AdminTransferred(r: Roles, admin: Address): Result<Roles, Error> {
    if admin == NOBODY then Err(ZeroAddress) else Ok(r.(admin := admin))
  }

  /** The mutator an operation stands for. */
  function Effect(r: Roles, op: Op): Result<Roles, Error> {
    match op.kind
    case ADD_WRITER => WriterAdded(r, op.target)
    case REMOVE_WRITER => WriterRemoved(r, op.target)
    case _ => AdminTransferred(r, op.target)
  }

  // ---------------------------------------------------------------- the timelock

  /** The storage of UntchReceipts that the timelock touches; an operation is pending when it has an eta. */
  datatype Board = Board(delay: nat, roles: Roles, eta: map<Op, nat>)

  /** A call's effect: the new storage, or an error and the storage as it was. */
  datatype Outcome = Outcome(board: Board, error: Option<Error>)

  function Done(b: Board): Outcome { Outcome(b, None) }

  function Revert(b: Board, e: Error): Outcome { Outcome(b, Some(e)) }

  /** block.timestamp is cut to 64 bits before it is used. */
  function Now64(time: nat): nat { time % U64 }

  function Proposed(b: Board, sender: Address, time: nat, op: Op): Outcome {
    if sender != b.roles.admin then Revert(b, NotAdmin)
    else if op.kind == NONE then Revert(b, InvalidOpKind)
    else if op.target == NOBODY then Revert(b, ZeroAddress)
    else if op in b.eta then Revert(b, OpAlreadyPending)
    else if Now64(time) + b.delay >= U64 then Revert(b, ArithmeticOverflow)
    else Done(b.(eta := b.eta[op := Now64(time) + b.delay]))
  }

  function Executed(b: Board, sender: Address, time: nat, op: Op): Outcome {
    if sender != b.roles.admin then Revert(b, NotAdmin)
    else if op !in b.eta then Revert(b, OpNotFound)
    else if Now64(time) < b.eta[op] then Revert(b, TimelockNotElapsed)
    else
      match Effect(b.roles, op)
      case Err(e) => Revert(b, e)
      case Ok(roles) => Done(b.(roles := roles, eta := b.eta - {op}))
  }

  function Cancelled(b: Board, sender: Address, op: Op): Outcome {
    if sender != b.roles.admin then Revert(b, NotAdmin)
    else if op !in b.eta then Revert(b, OpNotFound)
    else Done(b.(eta := b.eta - {op}))
  }

  datatype Call = ProposeCall(op: Op) | ExecuteCall(op: Op) | CancelCall(op: Op)

  function Invoke(b: Board, sender: Address, time: nat, call: Call): Outcome {
    match call
    case ProposeCall(op) => Proposed(b, sender, time, op)
    case ExecuteCall(op) => Executed(b, sender, time, op)
    case CancelCall(op) => Cancelled(b, sender, op)
  }

  class UntchReceipts {
    const timelockDelay: nat
    var admin: Address
    var writers: set<Address>
    var opEta: map<Op, nat>

    function View(): Board
      reads this
    {
      Board(timelockDelay, Roles(admin, writers), opEta)
    }

    constructor (deployer: Address, delay: nat)
      requires 0 < delay < U64
      ensures View() == Board(delay, Roles(deployer, {}), map[])
    {
      timelockDelay := delay;
      admin, writers, opEta := deployer, {}, map[];
    }

    method Propose(sender: Address, time: nat, op: Op) returns (error: Option<Error>)
      modifies this
      ensures Outcome(View(), error) == Proposed(old(View()), sender, time, op)
    {
      if sender != admin { return Some(NotAdmin); }
      if op.kind == NONE { return Some(InvalidOpKind); }
      if op.target == NOBODY { return Some(ZeroAddress); }
      if op in opEta { return Some(OpAlreadyPending); }
      var eta := time % U64 + timelockDelay;
      if eta >= U64 { return Some(ArithmeticOverflow); }
      opEta := opEta[op := eta];
      return None;
    }

    method Execute(sender: Address, time: nat, op: Op) returns (error: Option<Error>)
      modifies this
      ensures Outcome(View(), error) == Executed(old(View()), sender, time, op)
    {
      if sender != admin { return Some(NotAdmin); }
      if op !in opEta { return Some(OpNotFound); }
      if time % U64 < opEta[op] { return Some(TimelockNotElapsed); }
      var before := opEta;
      opEta := opEta - {op};
      if op.kind == ADD_WRITER {
        error := AddWriter(op.target);
      } else if op.kind == REMOVE_WRITER {
        error := RemoveWriter(op.target);
      } else {
        error := TransferAdmin(op.target);
      }
      if error.Some? {
        opEta := before;
      }
    }

    method Cancel(sender: Address, op: Op) returns (error: Option<Error>)
      modifies this
      ensures Outcome(View(), error) == Cancelled(old(View()), sender, op)
    {
      if sender != admin { return Some(NotAdmin); }
      if op !in opEta { return Some(OpNotFound); }
      opEta := opEta - {op};
      return None;
    }

    method AddWriter(writer: Address) returns (error: Option<Error>)
      modifies this`writers
      ensures match WriterAdded(old(View()).roles, writer)
              case Ok(roles) => error == None && View() == old(View()).(roles := roles)
              case Err(e) => error == Some(e) && View() == old(View())
    {
      if writer == NOBODY { return Some(ZeroAddress); }
      if writer in writers { return Some(AlreadyWriter); }
      writers := writers + {writer};
      return None;
    }

    method RemoveWriter(writer: Address) returns (error: Option<Error>)
      modifies this`writers
      ensures match WriterRemoved(old(View()).roles, writer)
              case Ok(roles) => error == None && View() == old(View()).(roles := roles)
              case Err(e) => error == Some(e) && View() == old(View())
    {
      if writer !in writers { return Some(NotAuthorizedWriter); }
      writers := writers - {writer};
      return None;
    }

    method TransferAdmin(newAdmin: Address) returns (error: Option<Error>)
      modifies this`admin
      ensures match AdminTransferred(old(View()).roles, newAdmin)
              case Ok(roles) => error == None && View() == old(View()).(roles := roles)
              case Err(e) => error == Some(e) && View() == old(View())
    {
      if newAdmin == NOBODY { return Some(ZeroAddress); }
      admin := newAdmin;
      return None;
    }
  }

  // ---------------------------------------------------------------- over every run

  datatype Tx = Tx(sender: Address, time: nat, call: Call)

  predicate InOrder(txs: seq<Tx>) {
    forall i, j | 0 <= i <= j < |txs| :: txs[i].time <= txs[j].time
  }

  /** The storage before transaction n of a run. */
  function At(start: Board, txs: seq<Tx>, n: nat): Board
    requires n <= |txs|
  {
    if n == 0 then start
    else Invoke(At(start, txs, n - 1), txs[n - 1].sender, txs[n - 1].time, txs[n - 1].call).board
  }

  /** Transaction i succeeded in proposing op, and op has been pending ever since, up to n. */
  ghost predicate PendingSince(start: Board, txs: seq<Tx>, op: Op, i: nat, n: nat)
    requires n <= |txs|
  {
    && i < n && txs[i].call == ProposeCall(op) && txs[i].sender == At(start, txs, i).roles.admin
    && op !in At(start, txs, i).eta
    && forall k | i < k <= n :: Pending(At(start, txs, k), op, Now64(txs[i].time) + start.delay)
  }

  predicate Pending(b: Board, op: Op, eta: nat) {
    op in b.eta && b.eta[op] == eta
  }

  lemma InvokeKeeps(b: Board, sender: Address, time: nat, call: Call, op: Op)
    ensures var next := Invoke(b, sender, time, call).board;
            && next.delay == b.delay
            && (op in next.eta && op in b.eta ==> next.eta[op] == b.eta[op])
            && (op in next.eta && op !in b.eta ==>
                  call == ProposeCall(op) && sender == b.roles.admin && next.eta[op] == Now64(time) + b.delay)
  {
  }

  /** Every pending operation was proposed by the admin of the time, at the eta it carries. */
  lemma {:induction false} PendingWasProposed(start: Board, txs: seq<Tx>, op: Op, n: nat) returns (i: nat)
    requires n <= |txs| && start.eta == map[] && op in At(start, txs, n).eta
    ensures PendingSince(start, txs, op, i, n)
  {
    hide Invoke;
    var b, tx := At(start, txs, n - 1), txs[n - 1];
    InvokeKeeps(b, tx.sender, tx.time, tx.call, op);
    DelayFixed(start, txs, n - 1);
    if op in b.eta {
      i := PendingWasProposed(start, txs, op, n - 1);
      assert Pending(b, op, Now64(txs[i].time) + start.delay);
    } else {
      i := n - 1;
    }
  }

  lemma {:induction false} DelayFixed(start: Board, txs: seq<Tx>, n: nat)
    requires n <= |txs|
    ensures At(start, txs, n).delay == start.delay
  {
    if n > 0 { DelayFixed(start, txs, n - 1); }
  }

  /** The two 64-bit readings of an ordered pair of times cannot hide a short wait. */
  lemma WaitIsReal(earlier: nat, later: nat, delay: nat)
    requires earlier <= later && Now64(earlier) + delay <= Now64(later)
    ensures earlier + delay <= later
  {
    assert earlier == earlier / U64 * U64 + Now64(earlier);
    assert later == later / U64 * U64 + Now64(later);
    assert earlier / U64 <= later / U64;
  }

  /** Whatever the callers and whatever the order: a change of the writer set or of the admin is the
      execution, by the admin, of an operation that an admin proposed at least the delay earlier and
      that stayed pending from then on; and it changes exactly what that operation says. */
  lemma TimelockNeverEarly(start: Board, txs: seq<Tx>, j: nat) returns (i: nat)
    requires start.eta == map[] && InOrder(txs) && j < |txs|
    requires At(start, txs, j + 1).roles != At(start, txs, j).roles
    ensures txs[j].call.ExecuteCall? && txs[j].sender == At(start, txs, j).roles.admin
    ensures PendingSince(start, txs, txs[j].call.op, i, j)
    ensures txs[i].time + start.delay <= txs[j].time
    ensures Effect(At(start, txs, j).roles, txs[j].call.op) == Ok(At(start, txs, j + 1).roles)
  {
    hide Effect;
    var b := At(start, txs, j);
    var op := txs[j].call.op;
    i := PendingWasProposed(start, txs, op, j);
    assert Pending(b, op, Now64(txs[i].time) + start.delay);
    WaitIsReal(txs[i].time, txs[j].time, start.delay);
  }

  /** Nobody but the admin changes anything. */
  lemma StrangersChangeNothing(b: Board, sender: Address, time: nat, call: Call)
    requires sender != b.roles.admin
    ensures Invoke(b, sender, time, call) == Revert(b, NotAdmin)
  {
  }
}
