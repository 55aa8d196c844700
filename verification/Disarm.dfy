/** The disarm command of scripts/solana-proof-disarm.ts against a platform that may accept a deletion and
    not carry it out, start containers whenever it likes, and serve any of them. One clock. */
module Disarm {
  import opened Wrappers

  /** Every variable a proof arms, the secret first. */
  const ARMED: seq<string> := [
    "CONSUMER_TREASURY_SOLANA_SECRET_KEY",
    "CONSUMER_SOLANA_EXECUTION_ENABLED",
    "CONSUMER_SOLANA_PROOF_MODE",
    "CONSUMER_PROVIDER_PURCH_ENABLED",
    "CONSUMER_CHAIN_SOLANA_5EYKT4USFV8P8NJDTREPY1VZQKQZKVDP_ENABLED",
    "CONSUMER_ASSET_SOLANA_5EYKT4USFV8P8NJDTREPY1VZQKQZKVDP_USDC_ENABLED",
    "CONSUMER_SOLANA_PROOF_INTENT_ID",
    "CONSUMER_SOLANA_PROOF_PROVIDER",
    "CONSUMER_SOLANA_PROOF_CAPABILITY",
    "CONSUMER_SOLANA_PROOF_MAX_USDC",
    "CONSUMER_SOLANA_PROOF_EXPIRES_AT"]

  type Id = nat

  /** A container keeps the variables there were when it started, for as long as it lives. */
  datatype Container = Container(deployment: Option<string>, startedAt: nat, captured: set<string>)

  datatype World = World(now: nat, vars: set<string>, containers: map<Id, Container>, serving: Id)

  /** What anyone but this command can do. */
  datatype Event =
    | Wait(ms: nat)
    | Start(id: Id, deployment: Option<string>)
    | Serve(id: Id)
    | Remove(name: string)
    | Add(name: string)

  function Happens(w: World, e: Event): World {
    match e
    case Wait(ms) => w.(now := w.now + ms)
    case Start(id, deployment) =>
      if id in w.containers then w
      else w.(containers := w.containers[id := Container(deployment, w.now, w.vars)])
    case Serve(id) => if id in w.containers then w.(serving := id) else w
    case Remove(name) => w.(vars := w.vars - {name})
    case Add(name) => w.(vars := w.vars + {name})
  }

  function HappenAll(w: World, es: seq<Event>): World {
    if es == [] then w else Happens(HappenAll(w, es[..|es| - 1]), es[|es| - 1])
  }

  predicate Coherent(w: World) {
    w.serving in w.containers && forall id <- w.containers :: w.containers[id].startedAt <= w.now
  }

  lemma {:induction false} TimePasses(w: World, es: seq<Event>)
    ensures w.now <= HappenAll(w, es).now
  {
    if es != [] { TimePasses(w, es[..|es| - 1]); }
  }

  // ---------------------------------------------------------------- the platform's answers

  /** What a container says about itself; nothing makes it true. */
  datatype Posture = Posture(
    phase: string, signer: string, execution: string, proofMode: string, rpcMode: string, rails: seq<string>)

  /** One interaction: what happens before it, whether it fails, whether a deletion is carried out, what a
      deletion reports, and what the serving container reports. */
  datatype Turn = Turn(
    events: seq<Event>, fails: bool, applied: bool, reported: bool,
    unreachable: bool, health: nat, posture: Posture)

  /** The platform and the rest of the run, one turn an interaction; a command that outlives it is cut off. */
  datatype Stage = Stage(world: World, turns: seq<Turn>)

  datatype Step<T> = Step(stage: Stage, value: T)

  /** The next turn: its events happen. */
  function Next(s: Stage): Step<Option<Turn>> {
    if s.turns == [] then Step(s, None)
    else Step(Stage(HappenAll(s.world, s.turns[0].events), s.turns[1..]), Some(s.turns[0]))
  }

  /** The variable list, by name, as it is after the turn's events. */
  function Names(s: Stage): Step<Option<set<string>>> {
    var n := Next(s);
    Step(n.stage, if n.value.None? || n.value.value.fails then None else Some(n.stage.world.vars))
  }

  /** `railway variable delete`: neither its failure nor what it reports says whether it was carried out. */
  function Deletion(s: Stage, name: string): Step<Option<bool>> {
    var n := Next(s);
    if n.value.None? then Step(n.stage, None)
    else
      var w := n.stage.world;
      Step(if n.value.value.applied then n.stage.(world := w.(vars := w.vars - {name})) else n.stage,
           if n.value.value.fails then None else Some(n.value.value.reported))
  }

  /** A command with no effect of its own that is seen here: listing deployments, asking for a redeploy. */
  function Asking(s: Stage): Step<bool> {
    var n := Next(s);
    Step(n.stage, n.value.Some? && !n.value.value.fails)
  }

  datatype Reading = Unreachable | Refused | Reading(health: nat, id: Id, deployment: Option<string>, startedAt: nat, posture: Posture)

  /** What comes back when the serving container is asked: its deployment and start time are its own. */
  function ReadingOf(w: World, t: Turn): Reading {
    if t.unreachable then Unreachable
    else if t.fails || w.serving !in w.containers then Refused
    else
      var c := w.containers[w.serving];
      Reading(t.health, w.serving, c.deployment, c.startedAt, t.posture)
  }

  function Posted(s: Stage): Step<Reading> {
    var n := Next(s);
    Step(n.stage, if n.value.None? then Unreachable else ReadingOf(n.stage.world, n.value.value))
  }

  function Slept(s: Stage): Stage {
    s.(world := s.world.(now := s.world.now + 10_000))
  }

  class Platform {
    var now: nat
    var vars: set<string>
    var containers: map<Id, Container>
    var serving: Id
    var turns: seq<Turn>

    function View(): Stage
      reads this
    {
      Stage(World(now, vars, containers, serving), turns)
    }

    constructor (s: Stage)
      ensures View() == s
    {
      now, vars, containers, serving := s.world.now, s.world.vars, s.world.containers, s.world.serving;
      turns := s.turns;
    }

    method TakeTurn() returns (turn: Option<Turn>)
      modifies this
      ensures Step(View(), turn) == Next(old(View()))
    {
      if turns == [] { return None; }
      turn := Some(turns[0]);
      var w := HappenAll(View().world, turns[0].events);
      now, vars, containers, serving := w.now, w.vars, w.containers, w.serving;
      turns := turns[1..];
    }

    method VariableNames() returns (names: Option<set<string>>)
      modifies this
      ensures Step(View(), names) == Names(old(View()))
    {
      var turn := TakeTurn();
      return if turn.None? || turn.value.fails then None else Some(vars);
    }

    method Delete(name: string) returns (reported: Option<bool>)
      modifies this
      ensures Step(View(), reported) == Deletion(old(View()), name)
    {
      var turn := TakeTurn();
      if turn.None? { return None; }
      if turn.value.applied { vars := vars - {name}; }
      return if turn.value.fails then None else Some(turn.value.reported);
    }

    method Ask() returns (ok: bool)
      modifies this
      ensures Step(View(), ok) == Asking(old(View()))
    {
      var turn := TakeTurn();
      return turn.Some? && !turn.value.fails;
    }

    method ReadPosture() returns (r: Reading)
      modifies this
      ensures Step(View(), r) == Posted(old(View()))
    {
      var turn := TakeTurn();
      return if turn.None? then Unreachable else ReadingOf(View().world, turn.value);
    }

    method Sleep()
      modifies this
      ensures View() == Slept(old(View()))
    {
      now := now + 10_000;
    }
  }

  // ---------------------------------------------------------------- the command, as a specification

  /** deleteVariable: believed only because a later list no longer has the name. */
  function Deleted(s: Stage, name: string): Step<bool> {
    var before := Names(s);
    if before.value.None? then Step(before.stage, false)
    else if name !in before.value.value then Step(before.stage, true)
    else
      var deletion := Deletion(before.stage, name);
      if deletion.value != Some(true) then Step(deletion.stage, false)
      else
        var after := Names(deletion.stage);
        Step(after.stage, after.value.Some? && name !in after.value.value)
  }

  /** The first n armed variables, one after the other, each verified absent before the next. */
  function DeletedAll(s: Stage, n: nat): Step<bool>
    requires n <= |ARMED|
  {
    if n == 0 then Step(s, true)
    else
      var fewer := DeletedAll(s, n - 1);
      if fewer.value then Deleted(fewer.stage, ARMED[n - 1]) else fewer
  }

  /** A new container, started after the deletions. */
  predicate Accepts(r: Reading, before: Option<string>, deletionsDone: nat) {
    r.Reading? && r.posture.phase == "READY" && r.deployment.Some? && r.deployment != before && r.startedAt > deletionsDone
  }

  /** What ends the waiting: a container that will do, or an answer that is none. */
  predicate Decides(r: Reading, before: Option<string>, deletionsDone: nat) {
    r == Refused || Accepts(r, before, deletionsDone)
  }

  /** Step 4: ask every ten seconds until the deadline. */
  function Awaited(s: Stage, before: Option<string>, deletionsDone: nat, deadline: nat): Step<Reading>
    decreases deadline - s.world.now
  {
    if s.world.now >= deadline then Step(s, Unreachable)
    else
      var r := Posted(Slept(s));
      PostedLater(Slept(s));
      if Decides(r.value, before, deletionsDone) then r else Awaited(r.stage, before, deletionsDone, deadline)
  }

  lemma PostedLater(s: Stage)
    ensures s.world.now <= Posted(s).stage.world.now
  {
    if s.turns != [] { TimePasses(s.world, s.turns[0].events); }
  }

  predicate Disarmed(r: Reading)
    requires r.Reading?
  {
    && r.health == 200 && r.posture.phase == "READY" && r.posture.signer == "absent"
    && r.posture.execution == "disabled" && r.posture.proofMode == "disabled"
    && r.posture.rpcMode == "read-only" && r.posture.rails == ["eip155:8453"]
  }

  /** Step 5's lists, one for each of the first n armed names: whether none of them is there. */
  function Absent(s: Stage, n: nat): Step<Option<bool>>
    requires n <= |ARMED|
  {
    if n == 0 then Step(s, Some(true))
    else
      var fewer := Absent(s, n - 1);
      if fewer.value.None? then fewer
      else
        var names := Names(fewer.stage);
        if names.value.None? then Step(names.stage, None)
        else Step(names.stage, Some(fewer.value.value && ARMED[n - 1] !in names.value.value))
  }

  /** Step 1: the variables, the deployments, and what the serving container says now. */
  function LookedBefore(s: Stage): Step<Reading> {
    var present := Names(s);
    if present.value.None? then Step(present.stage, Unreachable)
    else
      var listed := Asking(present.stage);
      if !listed.value then Step(listed.stage, Unreachable) else Posted(listed.stage)
  }

  datatype Outcome = DryRun | Incomplete | Complete(answer: Reading, deletionsDone: nat)

  /** Steps 2 to 5, once confirmed. */
  function Carried(s: Stage, before: Option<string>): Step<Outcome> {
    var deleted := DeletedAll(s, |ARMED|);
    if !deleted.value then Step(deleted.stage, Incomplete)
    else
      var asked := Asking(deleted.stage);
      if !asked.value then Step(asked.stage, Incomplete)
      else
        var deletionsDone := deleted.stage.world.now;
        var r := Awaited(asked.stage, before, deletionsDone, asked.stage.world.now + 600_000);
        if !r.value.Reading? then Step(r.stage, Incomplete)
        else
          var absent := Absent(r.stage, |ARMED|);
          Step(absent.stage,
               if absent.value == Some(true) && Disarmed(r.value) then Complete(r.value, deletionsDone) else Incomplete)
  }

  function Performed(s: Stage, confirm: bool): Step<Outcome> {
    var before := LookedBefore(s);
    if !before.value.Reading? then Step(before.stage, Incomplete)
    else if !confirm then Step(before.stage, DryRun)
    else Carried(before.stage, before.value.deployment)
  }

  // ---------------------------------------------------------------- the command

  method DeleteVariable(p: Platform, name: string) returns (gone: bool)
    modifies p
    ensures Step(p.View(), gone) == Deleted(old(p.View()), name)
  {
    hide Names, Deletion;
    var before := p.VariableNames();
    if before.None? { return false; }
    if name !in before.value { return true; }
    var reported := p.Delete(name);
    if reported != Some(true) { return false; }
    var after := p.VariableNames();
    return after.Some? && name !in after.value;
  }

  method DeleteAll(p: Platform) returns (ok: bool)
    modifies p
    ensures Step(p.View(), ok) == DeletedAll(old(p.View()), |ARMED|)
  {
    hide Deleted;
    ghost var start := p.View();
    for i := 0 to |ARMED|
      invariant Step(p.View(), true) == DeletedAll(start, i)
    {
      var gone := DeleteVariable(p, ARMED[i]);
      if !gone {
        StopsThere(start, i + 1, |ARMED|);
        return false;
      }
    }
    return true;
  }

  lemma {:induction false} StopsThere(s: Stage, m: nat, n: nat)
    requires m <= n <= |ARMED| && !DeletedAll(s, m).value
    ensures DeletedAll(s, n) == DeletedAll(s, m)
    decreases n
  {
    hide Deleted;
    if m < n { StopsThere(s, m, n - 1); }
  }

  method AwaitContainer(p: Platform, before: Option<string>, deletionsDone: nat) returns (r: Reading)
    modifies p
    ensures Step(p.View(), r) == Awaited(old(p.View()), before, deletionsDone, old(p.now) + 600_000)
  {
    hide Posted, Decides;
    ghost var start := p.View();
    var deadline := p.now + 600_000;
    while p.now < deadline
      invariant Awaited(start, before, deletionsDone, deadline) == Awaited(p.View(), before, deletionsDone, deadline)
      decreases deadline - p.now
    {
      PostedLater(Slept(p.View()));
      p.Sleep();
      r := p.ReadPosture();
      if Decides(r, before, deletionsDone) { return; }
    }
    return Unreachable;
  }

  /** Step 5: the container's own posture, and one list of variables for each armed name. None when a list
      cannot be had. */
  method Verify(p: Platform, r: Reading) returns (ok: Option<bool>)
    requires r.Reading?
    modifies p
    ensures p.View() == Absent(old(p.View()), |ARMED|).stage
    ensures ok == Some(true) <==> Absent(old(p.View()), |ARMED|).value == Some(true) && Disarmed(r)
  {
    hide Names, Disarmed;
    ghost var start := p.View();
    var absent := true;
    for i := 0 to |ARMED|
      invariant Step(p.View(), Some(absent)) == Absent(start, i)
    {
      var names := p.VariableNames();
      if names.None? {
        NoListNoAnswer(start, i + 1, |ARMED|);
        return None;
      }
      if ARMED[i] in names.value { absent := false; }
    }
    return Some(absent && Disarmed(r));
  }

  lemma {:induction false} NoListNoAnswer(s: Stage, m: nat, n: nat)
    requires m <= n <= |ARMED| && Absent(s, m).value.None?
    ensures Absent(s, n) == Absent(s, m)
    decreases n
  {
    hide Names;
    if m < n { NoListNoAnswer(s, m, n - 1); }
  }

  method LookBefore(p: Platform) returns (before: Reading)
    modifies p
    ensures Step(p.View(), before) == LookedBefore(old(p.View()))
  {
    hide Names, Asking, Posted;
    var present := p.VariableNames();
    if present.None? { return Unreachable; }
    var listed := p.Ask();
    if !listed { return Unreachable; }
    before := p.ReadPosture();
  }

  method Carry(p: Platform, before: Option<string>) returns (o: Outcome)
    modifies p
    ensures Step(p.View(), o) == Carried(old(p.View()), before)
  {
    hide DeletedAll, Asking, Awaited, Absent, Disarmed;
    var deleted := DeleteAll(p);
    if !deleted { return Incomplete; }
    var deletionsDone := p.now;
    var asked := p.Ask();
    if !asked { return Incomplete; }
    var r := AwaitContainer(p, before, deletionsDone);
    if !r.Reading? { return Incomplete; }
    var ok := Verify(p, r);
    return if ok == Some(true) then Complete(r, deletionsDone) else Incomplete;
  }

  method Run(p: Platform, confirm: bool) returns (o: Outcome)
    modifies p
    ensures Step(p.View(), o) == Performed(old(p.View()), confirm)
  {
    hide LookedBefore, Carried;
    var before := LookBefore(p);
    if !before.Reading? { return Incomplete; }
    if !confirm { return DryRun; }
    o := Carry(p, before.deployment);
  }
}
