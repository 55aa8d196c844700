/** The two-phase deployment of scripts/deploy-mainnet-suite.ts over the two writer-set contracts, with
    other people's transactions between every two steps. */
module Deployment {
  import opened Wrappers
  import opened Timelock

  datatype RegistryCall = AddCall(target: Address) | RemoveCall(target: Address) | TransferCall(target: Address)

  /** SpendIntentRegistry's admin is immediate. */
  function RegistryCalled(r: Roles, sender: Address, call: RegistryCall): Result<Roles, Error> {
    if sender != r.admin then Err(NotAdmin)
    else
      match call
      case AddCall(target) => WriterAdded(r, target)
      case RemoveCall(target) => WriterRemoved(r, target)
      case TransferCall(target) => AdminTransferred(r, target)
  }

  datatype World = World(now: nat, registry: Roles, receipts: Board)

  datatype OtherTx =
    | OnRegistry(sender: Address, registryCall: RegistryCall)
    | OnReceipts(sender: Address, receiptsCall: Call)

  /** What happens before a step of the script: others' transactions, then time. */
  datatype Slot = Slot(others: seq<OtherTx>, wait: nat)

  function Other(w: World, tx: OtherTx): World {
    match tx
    case OnRegistry(sender, call) =>
      (match RegistryCalled(w.registry, sender, call)
       case Ok(roles) => w.(registry := roles)
       case Err(_) => w)
    case OnReceipts(sender, call) => w.(receipts := Invoke(w.receipts, sender, w.now, call).board)
  }

  function Others(w: World, txs: seq<OtherTx>): World {
    if txs == [] then w else Other(Others(w, txs[..|txs| - 1]), txs[|txs| - 1])
  }

  function Passed(w: World, slot: Slot): World {
    var after := Others(w, slot.others);
    after.(now := after.now + slot.wait)
  }

  /** Nobody in the slots is one of the people trusted with a role. */
  predicate Outsiders(slots: seq<Slot>, trusted: set<Address>) {
    forall slot <- slots, tx <- slot.others :: tx.sender !in trusted
  }

  lemma {:induction false} OthersChangeNothing(w: World, txs: seq<OtherTx>)
    requires forall tx <- txs :: tx.sender != w.registry.admin && tx.sender != w.receipts.roles.admin
    ensures Others(w, txs) == w
  {
    hide Invoke;
    if txs != [] {
      var last := txs[|txs| - 1];
      OthersChangeNothing(w, txs[..|txs| - 1]);
      assert last in txs;
      if last.OnReceipts? { StrangersChangeNothing(w.receipts, last.sender, w.now, last.receiptsCall); }
    }
  }

  predicate Strangers(w: World, slot: Slot) {
    forall tx <- slot.others :: tx.sender != w.registry.admin && tx.sender != w.receipts.roles.admin
  }

  lemma SlotPasses(w: World, slot: Slot)
    requires Strangers(w, slot)
    ensures Passed(w, slot) == w.(now := w.now + slot.wait)
  {
    OthersChangeNothing(w, slot.others);
  }

  // ---------------------------------------------------------------- the chain

  class SpendIntentRegistry {
    var admin: Address
    var writers: set<Address>

    function View(): Roles
      reads this
    {
      Roles(admin, writers)
    }

    constructor (deployer: Address)
      ensures View() == Roles(deployer, {})
    {
      admin, writers := deployer, {};
    }

    method Call(sender: Address, call: RegistryCall) returns (error: Option<Error>)
      modifies this
      ensures match RegistryCalled(old(View()), sender, call)
              case Ok(roles) => error == None && View() == roles
              case Err(e) => error == Some(e) && View() == old(View())
    {
      if sender != admin { return Some(NotAdmin); }
      match call {
        case AddCall(target) =>
          if target == NOBODY { return Some(ZeroAddress); }
          if target in writers { return Some(AlreadyWriter); }
          writers := writers + {target};
        case RemoveCall(target) =>
          if target !in writers { return Some(NotAuthorizedWriter); }
          writers := writers - {target};
        case TransferCall(target) =>
          if target == NOBODY { return Some(ZeroAddress); }
          admin := target;
      }
      return None;
    }
  }

  class Chain {
    var now: nat
    const registry: SpendIntentRegistry
    const receipts: UntchReceipts

    function View(): World
      reads this, registry, receipts
    {
      World(now, registry.View(), receipts.View())
    }

    constructor (deployer: Address, delay: nat, time: nat)
      requires 0 < delay < U64
      ensures fresh(registry) && fresh(receipts)
      ensures View() == World(time, Roles(deployer, {}), Board(delay, Roles(deployer, {}), map[]))
    {
      registry := new SpendIntentRegistry(deployer);
      receipts := new UntchReceipts(deployer, delay);
      now := time;
    }

    method Mine(slot: Slot)
      modifies this, registry, receipts
      ensures View() == Passed(old(View()), slot)
    {
      ghost var start := View();
      for i := 0 to |slot.others|
        invariant View() == Others(start, slot.others[..i])
      {
        var tx := slot.others[i];
        assert slot.others[..i + 1][..i] == slot.others[..i];
        match tx {
          case OnRegistry(sender, call) =>
            var _ := registry.Call(sender, call);
          case OnReceipts(sender, ProposeCall(op)) =>
            var _ := receipts.Propose(sender, now, op);
          case OnReceipts(sender, ExecuteCall(op)) =>
            var _ := receipts.Execute(sender, now, op);
          case OnReceipts(sender, CancelCall(op)) =>
            var _ := receipts.Cancel(sender, op);
        }
      }
      assert slot.others[..|slot.others|] == slot.others;
      now := now + slot.wait;
    }

    /** Send a transaction of the script, which is mined after whatever the slot holds. */
    method SendToRegistry(slot: Slot, sender: Address, call: RegistryCall) returns (error: Option<Error>)
      requires Strangers(View(), slot)
      modifies this, registry, receipts
      ensures var w := old(View()).(now := old(now) + slot.wait);
              match RegistryCalled(w.registry, sender, call)
              case Ok(roles) => error == None && View() == w.(registry := roles)
              case Err(e) => error == Some(e) && View() == w
    {
      SlotPasses(View(), slot);
      Mine(slot);
      error := registry.Call(sender, call);
    }

    method SendToReceipts(slot: Slot, sender: Address, call: Call) returns (error: Option<Error>)
      requires Strangers(View(), slot)
      modifies this, registry, receipts
      ensures var w := old(View()).(now := old(now) + slot.wait);
              var outcome := Invoke(w.receipts, sender, w.now, call);
              error == outcome.error && View() == w.(receipts := outcome.board)
    {
      SlotPasses(View(), slot);
      Mine(slot);
      match call {
        case ProposeCall(op) => error := receipts.Propose(sender, now, op);
        case ExecuteCall(op) => error := receipts.Execute(sender, now, op);
        case CancelCall(op) => error := receipts.Cancel(sender, op);
      }
    }
  }

  // ---------------------------------------------------------------- the script

  datatype People = People(deployer: Address, owner: Address, admin: Address, writer: Address, oracle: Address)

  predicate AllDistinct(p: People) {
    && p.deployer != p.owner && p.deployer != p.admin && p.deployer != p.writer && p.deployer != p.oracle
    && p.owner != p.admin && p.owner != p.writer && p.owner != p.oracle
    && p.admin != p.writer && p.admin != p.oracle
    && p.writer != p.oracle
  }

  datatype Stop =
    | RoleCollision | BadDelay | NotPhaseOneKey | AdminAlreadyMoved | TooEarly
    | Reverted(error: Error) | ReadbackMismatch

  datatype Artifact = Artifact(people: People, eta: nat)

  function AddOp(p: People): Op { Op(ADD_WRITER, p.writer) }

  function MoveOp(p: People): Op { Op(TRANSFER_ADMIN, p.admin) }

  /** The times at which the two proposals are mined. */
  function FirstProposal(start: nat, slots: seq<Slot>): nat
    requires |slots| == 5
  {
    start + slots[0].wait + slots[1].wait + slots[2].wait
  }

  function SecondProposal(start: nat, slots: seq<Slot>): nat
    requires |slots| == 5
  {
    FirstProposal(start, slots) + slots[3].wait
  }

  /** What phase 1 leaves behind: the registry handed over, the two receipts operations pending. */
  predicate AfterPhaseOne(w: World, a: Artifact, moveEta: nat) {
    && AllDistinct(a.people) && a.people.writer != NOBODY && a.people.admin != NOBODY
    && w.registry == Roles(a.people.admin, {a.people.writer})
    && w.receipts.roles == Roles(a.people.deployer, {})
    && w.receipts.eta == map[AddOp(a.people) := a.eta, MoveOp(a.people) := moveEta]
  }

  lemma SlotOfStrangers(slots: seq<Slot>, i: nat, trusted: set<Address>, w: World)
    requires Outsiders(slots, trusted) && i < |slots|
    requires w.registry.admin in trusted && w.receipts.roles.admin in trusted
    ensures Strangers(w, slots[i])
  {
    assert slots[i] in slots;
  }

  /** PHASE=1. It succeeds exactly on distinct non-zero roles and a delay that fits, and then leaves the
      two operations pending, each for the full delay from its own block. */
  method PhaseOne(p: People, delay: nat, start: nat, slots: seq<Slot>) returns (chain: Chain?, r: Result<Artifact, Stop>)
    requires |slots| == 5 && Outsiders(slots, {p.deployer, p.admin})
    ensures r.Ok? <==>
              && AllDistinct(p) && 0 < delay < U64 && p.writer != NOBODY && p.admin != NOBODY
              && Now64(FirstProposal(start, slots)) + delay < U64
              && Now64(SecondProposal(start, slots)) + delay < U64
    ensures r == Err(RoleCollision) <==> !AllDistinct(p)
    ensures r == Err(BadDelay) <==> AllDistinct(p) && !(0 < delay < U64)
    ensures r.Ok? || r.error == RoleCollision || r.error == BadDelay
            || r.error == Reverted(if p.writer == NOBODY || p.admin == NOBODY then ZeroAddress else ArithmeticOverflow)
    ensures r.Ok? ==>
              && chain != null && fresh(chain) && fresh(chain.registry) && fresh(chain.receipts)
              && r.value == Artifact(p, Now64(FirstProposal(start, slots)) + delay)
              && AfterPhaseOne(chain.View(), r.value, Now64(SecondProposal(start, slots)) + delay)
              && chain.receipts.timelockDelay == delay && chain.now == SecondProposal(start, slots) + slots[4].wait
  {
    hide Others, Passed, Now64, Executed, Cancelled, Outsiders, Strangers;
    if !AllDistinct(p) { return null, Err(RoleCollision); }
    if !(0 < delay < U64) { return null, Err(BadDelay); }
    chain := new Chain(p.deployer, delay, start);
    var registry, receipts := chain.registry, chain.receipts;
    SlotOfStrangers(slots, 0, {p.deployer, p.admin}, chain.View());
    var error := chain.SendToRegistry(slots[0], p.deployer, AddCall(p.writer));
    if error.Some? { return chain, Err(Reverted(error.value)); }
    SlotOfStrangers(slots, 1, {p.deployer, p.admin}, chain.View());
    error := chain.SendToRegistry(slots[1], p.deployer, TransferCall(p.admin));
    if error.Some? { return chain, Err(Reverted(error.value)); }
    SlotOfStrangers(slots, 2, {p.deployer, p.admin}, chain.View());
    error := chain.SendToReceipts(slots[2], p.deployer, ProposeCall(AddOp(p)));
    if error.Some? { return chain, Err(Reverted(error.value)); }
    SlotOfStrangers(slots, 3, {p.deployer, p.admin}, chain.View());
    error := chain.SendToReceipts(slots[3], p.deployer, ProposeCall(MoveOp(p)));
    if error.Some? { return chain, Err(Reverted(error.value)); }
    SlotOfStrangers(slots, 4, {p.deployer, p.admin}, chain.View());
    SlotPasses(chain.View(), slots[4]);
    chain.Mine(slots[4]);
    var eta := if AddOp(p) in receipts.opEta then receipts.opEta[AddOp(p)] else 0;
    if !(registry.admin == p.admin && p.writer in registry.writers && receipts.admin == p.deployer
         && p.writer !in receipts.writers && receipts.timelockDelay == delay) {
      return chain, Err(ReadbackMismatch);
    }
    return chain, Ok(Artifact(p, eta));
  }

  /** PHASE=2 on a chain where only time passes: the gate looks at the eta of ADD_WRITER alone. */
  function PhaseTwoRun(w: World, a: Artifact, deployer: Address, t0: nat, t1: nat, t2: nat): (World, Result<(), Stop>) {
    var p := a.people;
    if p.deployer != deployer then (w, Err(NotPhaseOneKey))
    else if w.receipts.roles.admin != deployer then (w, Err(AdminAlreadyMoved))
    else if t0 < a.eta then (w, Err(TooEarly))
    else
      var added := Executed(w.receipts, deployer, t1, AddOp(p));
      if added.error.Some? then (w, Err(Reverted(added.error.value)))
      else
        var moved := Executed(added.board, deployer, t2, MoveOp(p));
        if moved.error.Some? then (w.(receipts := added.board), Err(Reverted(moved.error.value)))
        else
          var end := w.(receipts := moved.board);
          if Handed(end, p) then (end, Ok(())) else (end, Err(ReadbackMismatch))
  }

  /** The final readback: both contracts administered by the intended admin, the writer on both, and the
      deployer not a writer of the receipts. */
  predicate Handed(w: World, p: People) {
    && w.receipts.roles.admin == p.admin && p.writer in w.receipts.roles.writers
    && p.deployer !in w.receipts.roles.writers
    && w.registry.admin == p.admin && p.writer in w.registry.writers
  }

  method PhaseTwo(chain: Chain, a: Artifact, deployer: Address, slots: seq<Slot>) returns (r: Result<(), Stop>)
    requires |slots| == 4
    requires Outsiders(slots, {deployer, a.people.admin, chain.registry.admin, chain.receipts.admin})
    modifies chain, chain.registry, chain.receipts
    ensures var w := old(chain.View());
            var t0 := w.now + slots[0].wait;
            var t1 := t0 + slots[1].wait;
            var run := PhaseTwoRun(w, a, deployer, t0, t1, t1 + slots[2].wait);
            r == run.1 && chain.View() == run.0.(now := chain.now)
  {
    hide Others, Passed, Now64;
    var registry, receipts, p := chain.registry, chain.receipts, a.people;
    if p.deployer != deployer { return Err(NotPhaseOneKey); }
    SlotPasses(chain.View(), slots[0]);
    chain.Mine(slots[0]);
    if receipts.admin != deployer { return Err(AdminAlreadyMoved); }
    if chain.now < a.eta { return Err(TooEarly); }
    var error := chain.SendToReceipts(slots[1], deployer, ExecuteCall(AddOp(p)));
    if error.Some? { return Err(Reverted(error.value)); }
    error := chain.SendToReceipts(slots[2], deployer, ExecuteCall(MoveOp(p)));
    if error.Some? { return Err(Reverted(error.value)); }
    SlotPasses(chain.View(), slots[3]);
    chain.Mine(slots[3]);
    if !(receipts.admin == p.admin && p.writer in receipts.writers && p.deployer !in receipts.writers
         && registry.admin == p.admin && p.writer in registry.writers) {
      return Err(ReadbackMismatch);
    }
    return Ok(());
  }

  // ---------------------------------------------------------------- what the two phases achieve

  /** After phase 1, phase 2 completes exactly when the gate's block is past the eta of ADD_WRITER and
      the two executions are past the eta of their own operation. */
  lemma PhaseTwoCompletes(w: World, a: Artifact, moveEta: nat, t0: nat, t1: nat, t2: nat)
    requires AfterPhaseOne(w, a, moveEta)
    ensures PhaseTwoRun(w, a, a.people.deployer, t0, t1, t2).1.Ok? <==>
            a.eta <= t0 && a.eta <= Now64(t1) && moveEta <= Now64(t2)
  {
  }

  /** The deployer is neither admin nor writer anywhere, the intended people are. */
  predicate HandedOver(w: World, p: People) {
    && w.registry == Roles(p.admin, {p.writer}) && w.receipts.roles == Roles(p.admin, {p.writer})
    && w.receipts.eta == map[]
    && p.deployer != p.admin && p.deployer != p.writer
  }

  lemma PhaseTwoHandsOver(w: World, a: Artifact, moveEta: nat, t0: nat, t1: nat, t2: nat)
    requires AfterPhaseOne(w, a, moveEta)
    requires PhaseTwoRun(w, a, a.people.deployer, t0, t1, t2).1.Ok?
    ensures HandedOver(PhaseTwoRun(w, a, a.people.deployer, t0, t1, t2).0, a.people)
  {
    var p := a.people;
    assert AddOp(p) != MoveOp(p);
    assert {p.writer} == {} + {p.writer};
    assert w.receipts.eta - {AddOp(p)} - {MoveOp(p)} == map[];
  }

  /** Stuck halfway: the writer is in, its operation is used up, and the deployer is still admin. */
  predicate Halfway(w: World, a: Artifact) {
    && w.receipts.roles == Roles(a.people.deployer, {a.people.writer})
    && AddOp(a.people) !in w.receipts.eta
  }

  /** Past the gate but short of the second eta, phase 2 stops halfway. */
  lemma GateMissesSecondEta(w: World, a: Artifact, moveEta: nat, t0: nat, t1: nat, t2: nat)
    requires AfterPhaseOne(w, a, moveEta)
    requires a.eta <= t0 && a.eta <= Now64(t1) && Now64(t2) < moveEta
    ensures var run := PhaseTwoRun(w, a, a.people.deployer, t0, t1, t2);
            run.1 == Err(Reverted(TimelockNotElapsed)) && Halfway(run.0, a)
  {
    assert AddOp(a.people) != MoveOp(a.people);
    assert {a.people.writer} == {} + {a.people.writer};
  }

  /** From there the script never finishes: at any later time, every run stops at the first execution,
      so the hand-over has to be carried out by other means. */
  lemma HalfwayIsForever(w: World, a: Artifact, runs: seq<(nat, nat, nat)>)
    requires Halfway(w, a)
    ensures forall run <- runs :: PhaseTwoRun(w, a, a.people.deployer, run.0, run.1, run.2).0 == w
                               && PhaseTwoRun(w, a, a.people.deployer, run.0, run.1, run.2).1.Err?
  {
  }

  /** In the other order, the deployer would lose the role it needs for the second execution. */
  lemma AdminMustMoveLast(w: World, a: Artifact, moveEta: nat, t1: nat, t2: nat)
    requires AfterPhaseOne(w, a, moveEta) && moveEta <= Now64(t1)
    ensures var moved := Executed(w.receipts, a.people.deployer, t1, MoveOp(a.people));
            && moved.error == None
            && Executed(moved.board, a.people.deployer, t2, AddOp(a.people)) == Revert(moved.board, NotAdmin)
  {
  }

  /** The whole deployment: phase 1, any wait, phase 2, outsiders transacting throughout. Once the waits
      carry every execution past its eta, and only then, the roles are handed over; short of that the
      receipts still have the deployer for their admin. */
  method DeployAll(p: People, delay: nat, start: nat, first: seq<Slot>, second: seq<Slot>)
    returns (chain: Chain?, done: bool)
    requires |first| == 5 && Outsiders(first, {p.deployer, p.admin})
    requires |second| == 4 && Outsiders(second, {p.deployer, p.admin})
    requires AllDistinct(p) && p.writer != NOBODY && p.admin != NOBODY && 0 < delay
    requires SecondProposal(start, first) + delay < U64
    ensures chain != null
    ensures var t0 := SecondProposal(start, first) + first[4].wait + second[0].wait;
            var t1 := t0 + second[1].wait;
            done <==>
              && FirstProposal(start, first) + delay <= t0 && FirstProposal(start, first) + delay <= Now64(t1)
              && SecondProposal(start, first) + delay <= Now64(t1 + second[2].wait)
    ensures done ==> HandedOver(chain.View(), p)
    ensures !done ==> chain.receipts.admin == p.deployer
  {
    var r;
    chain, r := PhaseOne(p, delay, start, first);
    var a := r.value;
    ghost var w := chain.View();
    ghost var moveEta := SecondProposal(start, first) + delay;
    ghost var t0 := w.now + second[0].wait;
    ghost var t1 := t0 + second[1].wait;
    ghost var t2 := t1 + second[2].wait;
    var r2 := PhaseTwo(chain, a, p.deployer, second);
    done := r2.Ok?;
    PhaseTwoCompletes(w, a, moveEta, t0, t1, t2);
    if done {
      PhaseTwoHandsOver(w, a, moveEta, t0, t1, t2);
    }
  }
}
