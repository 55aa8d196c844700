/** The pre-proposal guard of scripts/governance-identity-guard.ts, read against the timelock. */
module Governance {
  import opened Wrappers
  import opened Timelock

  datatype Candidate = Candidate(address: Address, title: string)

  datatype PendingOp = PendingOp(op: Op, title: string, eta: nat, matured: bool)

  const KINDS := [ADD_WRITER, REMOVE_WRITER, TRANSFER_ADMIN]

  function PendingOf(b: Board, c: Candidate, kind: OpKind, nowTs: nat): seq<PendingOp> {
    var op := Op(kind, c.address);
    if op in b.eta then [PendingOp(op, c.title, b.eta[op], nowTs >= b.eta[op])] else []
  }

  function PendingKinds(b: Board, c: Candidate, nowTs: nat, n: nat): seq<PendingOp>
    requires n <= |KINDS|
  {
    if n == 0 then [] else PendingKinds(b, c, nowTs, n - 1) + PendingOf(b, c, KINDS[n - 1], nowTs)
  }

  function PendingAll(b: Board, candidates: seq<Candidate>, nowTs: nat): seq<PendingOp> {
    if candidates == [] then []
    else
      var last := |candidates| - 1;
      PendingAll(b, candidates[..last], nowTs) + PendingKinds(b, candidates[last], nowTs, 3)
  }

  /** enumeratePending: the candidates crossed with the three kinds, keeping those with an eta. */
  method EnumeratePending(b: Board, candidates: seq<Candidate>, nowTs: nat) returns (found: seq<PendingOp>)
    ensures found == PendingAll(b, candidates, nowTs)
  {
    found := [];
    for i := 0 to |candidates|
      invariant found == PendingAll(b, candidates[..i], nowTs)
    {
      ghost var before := found;
      var c := candidates[i];
      for k := 0 to |KINDS|
        invariant found == before + PendingKinds(b, c, nowTs, k)
      {
        var op := Op(KINDS[k], c.address);
        if op in b.eta {
          found := found + [PendingOp(op, c.title, b.eta[op], nowTs >= b.eta[op])];
        }
      }
      assert candidates[..i + 1][..i] == candidates[..i];
    }
    assert candidates[..|candidates|] == candidates;
  }

  lemma PendingKindsExact(b: Board, c: Candidate, nowTs: nat, p: PendingOp)
    ensures p in PendingKinds(b, c, nowTs, 3) <==> exists kind :: kind != NONE && p in PendingOf(b, c, kind, nowTs)
  {
    assert PendingKinds(b, c, nowTs, 1) == PendingOf(b, c, ADD_WRITER, nowTs);
    assert PendingKinds(b, c, nowTs, 2) == PendingKinds(b, c, nowTs, 1) + PendingOf(b, c, REMOVE_WRITER, nowTs);
    assert PendingKinds(b, c, nowTs, 3) == PendingKinds(b, c, nowTs, 2) + PendingOf(b, c, TRANSFER_ADMIN, nowTs);
    if kind: OpKind :| kind != NONE && p in PendingOf(b, c, kind, nowTs) {
      assert kind == ADD_WRITER || kind == REMOVE_WRITER || kind == TRANSFER_ADMIN;
    }
  }

  /** The board is exactly the candidate-by-kind pairs that are pending, with their etas. */
  lemma {:induction false} PendingAllExact(b: Board, candidates: seq<Candidate>, nowTs: nat, p: PendingOp)
    ensures p in PendingAll(b, candidates, nowTs) <==>
            && p.op.kind != NONE && p.op in b.eta && p.eta == b.eta[p.op] && p.matured == (nowTs >= p.eta)
            && exists c <- candidates :: c.address == p.op.target && c.title == p.title
  {
    hide PendingKinds;
    if candidates != [] {
      var last := |candidates| - 1;
      PendingAllExact(b, candidates[..last], nowTs, p);
      PendingKindsExact(b, candidates[last], nowTs, p);
      assert candidates == candidates[..last] + [candidates[last]];
      if p in PendingKinds(b, candidates[last], nowTs, 3) {
        var kind :| kind != NONE && p in PendingOf(b, candidates[last], kind, nowTs);
      }
      if p.op.kind != NONE && p.op in b.eta && p.eta == b.eta[p.op] && p.matured == (nowTs >= p.eta)
         && candidates[last].address == p.op.target && candidates[last].title == p.title {
        assert p in PendingOf(b, candidates[last], p.op.kind, nowTs);
      }
    }
  }

  /** And in this order: candidate by candidate, and of each the three kinds. */
  lemma {:induction false} PendingInOrder(b: Board, a: seq<Candidate>, c: Candidate, rest: seq<Candidate>, nowTs: nat)
    ensures PendingAll(b, a + [c] + rest, nowTs)
            == PendingAll(b, a, nowTs)
                 + (PendingOf(b, c, ADD_WRITER, nowTs) + PendingOf(b, c, REMOVE_WRITER, nowTs) + PendingOf(b, c, TRANSFER_ADMIN, nowTs))
                 + PendingAll(b, rest, nowTs)
    decreases |rest|
  {
    hide PendingOf, PendingKinds;
    var all := a + [c] + rest;
    if rest == [] {
      assert all[..|all| - 1] == a;
      ThreeKinds(b, c, nowTs);
    } else {
      var last := |rest| - 1;
      PendingInOrder(b, a, c, rest[..last], nowTs);
      assert all[..|all| - 1] == a + [c] + rest[..last];
    }
  }

  lemma ThreeKinds(b: Board, c: Candidate, nowTs: nat)
    ensures PendingKinds(b, c, nowTs, 3)
            == PendingOf(b, c, ADD_WRITER, nowTs) + PendingOf(b, c, REMOVE_WRITER, nowTs) + PendingOf(b, c, TRANSFER_ADMIN, nowTs)
  {
    hide PendingOf;
    assert PendingKinds(b, c, nowTs, 1) == PendingOf(b, c, ADD_WRITER, nowTs);
    assert PendingKinds(b, c, nowTs, 2) == PendingKinds(b, c, nowTs, 1) + PendingOf(b, c, REMOVE_WRITER, nowTs);
  }

  datatype Verdict = Pass | Mismatch | Unreadable | AlreadyPending(op: PendingOp) | AlreadyAWriter | NotAWriter

  /** Another service's signer. Variables that cannot be read end the guard on the spot, so the catch
      around the reading is left with keys that were read and give no account. */
  datatype Signer = NoVariables | NoAccount | Signs(address: Address)

  /** The address listed for a signer: zero for a key that gives no account. */
  function Listed(s: Signer): Address {
    if s.Signs? then s.address else NOBODY
  }

  /** The candidate board of main: the named service's signer, the other services' signers, and every
      admin not yet listed. */
  method Candidates(derived: Address, others: seq<Signer>, admins: seq<Address>) returns (board: Option<seq<Candidate>>)
    ensures board.None? <==> NoVariables in others
    ensures board.Some? ==>
              && |board.value| > |others| && board.value[0].address == derived
              && (forall k | 0 <= k < |others| ::
                    board.value[k + 1].address == if others[k].Signs? then others[k].address else NOBODY)
              && AdminsAfter(board.value, |others| + 1, admins)
  {
    hide AdminsAfter;
    var cs := [Candidate(derived, "signer")];
    for i := 0 to |others|
      invariant |cs| == i + 1 && cs[0].address == derived
      invariant forall k | 0 <= k < i :: others[k] != NoVariables
                  && cs[k + 1].address == if others[k].Signs? then others[k].address else NOBODY
    {
      if others[i] == NoVariables { return None; }
      cs := cs + [Candidate(Listed(others[i]), if others[i].Signs? then "signer" else "UNREADABLE")];
    }
    cs := WithAdmins(cs, admins);
    return Some(cs);
  }

  /** From a position on there are the admins that are nowhere before, each once; and every admin is listed. */
  ghost predicate AdminsAfter(cs: seq<Candidate>, n: nat, admins: seq<Address>) {
    && (forall k | n <= k < |cs| :: cs[k].address in admins && Fresh(cs[..k], cs[k].address))
    && (forall a <- admins :: !Fresh(cs, a))
  }

  predicate Fresh(cs: seq<Candidate>, a: Address) {
    forall c <- cs :: c.address != a
  }

  method WithAdmins(signers: seq<Candidate>, admins: seq<Address>) returns (cs: seq<Candidate>)
    ensures signers <= cs && AdminsAfter(cs, |signers|, admins)
  {
    hide Fresh, AdminsAfter;
    cs := signers;
    NoAdminsYet(signers);
    for i := 0 to |admins|
      invariant signers <= cs && AdminsAfter(cs, |signers|, admins[..i])
    {
      OneMoreAdmin(cs, |signers|, admins, i);
      if Fresh(cs, admins[i]) {
        cs := cs + [Candidate(admins[i], "admin")];
      }
    }
    assert admins[..|admins|] == admins;
  }

  lemma NoAdminsYet(cs: seq<Candidate>)
    ensures AdminsAfter(cs, |cs|, [])
  {
  }

  lemma OneMoreAdmin(cs: seq<Candidate>, n: nat, admins: seq<Address>, i: nat)
    requires n <= |cs| && i < |admins| && AdminsAfter(cs, n, admins[..i])
    ensures if Fresh(cs, admins[i]) then AdminsAfter(cs + [Candidate(admins[i], "admin")], n, admins[..i + 1])
            else AdminsAfter(cs, n, admins[..i + 1])
  {
    assert admins[..i + 1] == admins[..i] + [admins[i]];
    var c := Candidate(admins[i], "admin");
    var grown := cs + [c];
    assert c in grown && grown[..|cs|] == cs;
    forall k | n <= k < |cs|
      ensures grown[..k] == cs[..k]
    {
    }
    forall a <- admins[..i]
      ensures !Fresh(grown, a)
    {
      var d :| d in cs && d.address == a;
      assert d in grown;
    }
  }

  /** From the comparison of the derived signer on, the refusals of main, in order. */
  method Guard(derived: Address, expected: Address, role: OpKind, b: Board,
               others: seq<Signer>, admins: seq<Address>, nowTs: nat) returns (v: Verdict)
    requires role != NONE
    ensures v.AlreadyPending? ==> v.op.op == Op(role, derived) && v.op.op in b.eta && v.op.eta == b.eta[v.op.op]
    ensures v == Mismatch <==> derived != expected
    ensures v == Unreadable <==> derived == expected && NoVariables in others
    ensures v.AlreadyPending? <==> derived == expected && NoVariables !in others && Op(role, derived) in b.eta
    ensures v.AlreadyPending? ==> v.op.matured == (nowTs >= v.op.eta)
    ensures v == AlreadyAWriter ==> role == ADD_WRITER && derived in b.roles.writers
    ensures v == NotAWriter ==> role == REMOVE_WRITER && derived !in b.roles.writers
    ensures v == Pass <==>
              && derived == expected && NoVariables !in others && Op(role, derived) !in b.eta
              && (role == ADD_WRITER ==> derived !in b.roles.writers)
              && (role == REMOVE_WRITER ==> derived in b.roles.writers)
  {
    if derived != expected { return Mismatch; }
    var board := Candidates(derived, others, admins);
    if board.None? { return Unreadable; }
    var cs := board.value;
    var pending := EnumeratePending(b, cs, nowTs);
    var op := Op(role, derived);
    ghost var mine := if op in b.eta then PendingOp(op, cs[0].title, b.eta[op], nowTs >= b.eta[op]) else PendingOp(op, "", 0, true);
    PendingAllExact(b, cs, nowTs, mine);
    assert op in b.eta ==> mine in pending;
    for i := 0 to |pending|
      invariant forall k | 0 <= k < i :: pending[k].op != op
    {
      if pending[i].op == op {
        PendingAllExact(b, cs, nowTs, pending[i]);
        return AlreadyPending(pending[i]);
      }
    }
    if role == ADD_WRITER && derived in b.roles.writers { return AlreadyAWriter; }
    if role == REMOVE_WRITER && derived !in b.roles.writers { return NotAWriter; }
    return Pass;
  }

  lemma {:induction false} StrangersRun(b: Board, txs: seq<Tx>, n: nat)
    requires n <= |txs| && forall tx <- txs :: tx.sender != b.roles.admin
    ensures Timelock.At(b, txs, n) == b
  {
    hide Invoke;
    if n > 0 {
      StrangersRun(b, txs, n - 1);
      assert txs[n - 1] in txs;
      StrangersChangeNothing(b, txs[n - 1].sender, txs[n - 1].time, txs[n - 1].call);
    }
  }

  /** What a pass is worth, and what a refusal is: the guard passes exactly when the admin's proposal and,
      after its delay, its execution both go through, whatever anyone but the admin sends in between;
      and it says "already pending" exactly when the proposal would revert for that reason. */
  lemma PassMeansItWorks(b: Board, role: OpKind, target: Address, t1: nat, between: seq<Tx>, t2: nat)
    requires role != NONE && target != NOBODY && Now64(t1) + b.delay < U64
    requires Now64(t2) >= Now64(t1) + b.delay
    requires forall tx <- between :: tx.sender != b.roles.admin
    ensures var op := Op(role, target);
            var proposed := Proposed(b, b.roles.admin, t1, op);
            var later := Timelock.At(proposed.board, between, |between|);
            var pass := op !in b.eta
                        && (role == ADD_WRITER ==> target !in b.roles.writers)
                        && (role == REMOVE_WRITER ==> target in b.roles.writers);
            && (proposed.error == Some(OpAlreadyPending) <==> op in b.eta)
            && (pass <==> proposed.error == None && Executed(later, b.roles.admin, t2, op).error == None)
  {
    StrangersRun(Proposed(b, b.roles.admin, t1, Op(role, target)).board, between, |between|);
  }
}
