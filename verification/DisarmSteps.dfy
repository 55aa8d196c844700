/** The disarm command one interaction at a time: which question is with the platform, and what each answer
    leads to. The run as a whole is this machine's, and without confirmation it only looks. */
module DisarmSteps {
  import opened Wrappers
  import opened Disarm

  /** What the command is waiting for an answer to, with what it remembers. */
  datatype Question =
    | WhatIsSet
    | WhatIsDeployed
    | WhoServes
    | IsSet(before: Option<string>, k: nat)
    | Deletes(before: Option<string>, k: nat)
    | IsGone(before: Option<string>, k: nat)
    | Redeploys(before: Option<string>, deletionsDone: nat)
    | WhoServesNow(before: Option<string>, deletionsDone: nat, deadline: nat)
    | IsBack(k: nat, answer: Reading, deletionsDone: nat, noneBack: bool)
    | Ended(outcome: Outcome)

  datatype State = State(question: Question, stage: Stage)

  /** What a run that is cut off gets for an answer. */
  const SILENCE := Turn([], true, false, false, true, 0, Posture("", "", "", "", "", []))

  function Reply(s: Stage): Turn {
    if s.turns == [] then SILENCE else s.turns[0]
  }

  function Name(k: nat): string {
    if k < |ARMED| then ARMED[k] else ""
  }

  /** The platform when the answer comes: before a question of step 4 ten seconds pass, and a deletion is
      carried out or not. */
  function Reached(q: Question, s: Stage): Stage {
    var w := if q.WhoServesNow? then s.world.(now := s.world.now + 10_000) else s.world;
    var n := HappenAll(w, Reply(s).events);
    Stage(if q.Deletes? && Reply(s).applied then n.(vars := n.vars - {Name(q.k)}) else n,
          if s.turns == [] then [] else s.turns[1..])
  }

  /** The next armed name, or the redeploy when there is none. */
  function FromName(before: Option<string>, k: nat, now: nat): Question {
    if k < |ARMED| then IsSet(before, k) else Redeploys(before, now)
  }

  /** The question after an answer, given the world in which it came. */
  function Following(confirm: bool, q: Question, w: World, t: Turn): Question {
    match q
    case WhatIsSet => if t.fails then Ended(Incomplete) else WhatIsDeployed
    case WhatIsDeployed => if t.fails then Ended(Incomplete) else WhoServes
    case WhoServes =>
      if !ReadingOf(w, t).Reading? then Ended(Incomplete)
      else if confirm then IsSet(ReadingOf(w, t).deployment, 0) else Ended(DryRun)
    case IsSet(before, k) =>
      if t.fails then Ended(Incomplete)
      else if Name(k) in w.vars then Deletes(before, k) else FromName(before, k + 1, w.now)
    case Deletes(before, k) => if !t.fails && t.reported then IsGone(before, k) else Ended(Incomplete)
    case IsGone(before, k) =>
      if t.fails || Name(k) in w.vars then Ended(Incomplete) else FromName(before, k + 1, w.now)
    case Redeploys(before, done) =>
      if t.fails then Ended(Incomplete) else WhoServesNow(before, done, w.now + 600_000)
    case WhoServesNow(before, done, deadline) =>
      var r := ReadingOf(w, t);
      if r.Reading? && r.posture.phase == "READY" && r.deployment.Some? && r.deployment != before && done < r.startedAt
      then IsBack(0, r, done, true)
      else if r == Refused || deadline <= w.now then Ended(Incomplete)
      else q
    case IsBack(k, r, done, noneBack) =>
      var none := noneBack && Name(k) !in w.vars;
      if t.fails then Ended(Incomplete)
      else if k + 1 < |ARMED| then IsBack(k + 1, r, done, none)
      else if none && SaysDisarmed(r) then Ended(Complete(r, done)) else Ended(Incomplete)
    case Ended(_) => q
  }

  predicate SaysDisarmed(r: Reading) {
    r.Reading? && r.health == 200 && r.posture == Posture("READY", "absent", "disabled", "disabled", "read-only", ["eip155:8453"])
  }

  function Moved(confirm: bool, c: State): State {
    if c.question.Ended? then c
    else
      var s := Reached(c.question, c.stage);
      State(Following(confirm, c.question, s.world, Reply(c.stage)), s)
  }

  /** The command after n interactions. */
  function After(confirm: bool, c: State, n: nat): State {
    if n == 0 then c else Moved(confirm, After(confirm, c, n - 1))
  }

  lemma {:induction false} AfterOn(confirm: bool, c: State, m: nat, n: nat)
    ensures After(confirm, c, m + n) == After(confirm, After(confirm, c, m), n)
  {
    hide Moved;
    if n > 0 { AfterOn(confirm, c, m, n - 1); }
  }

  lemma Once(confirm: bool, c: State)
    ensures After(confirm, c, 1) == Moved(confirm, c)
  {
    assert After(confirm, c, 0) == c;
  }

  // ---------------------------------------------------------------- each kind of question

  lemma NamesAnswer(s: Stage, q: Question)
    requires !q.WhoServesNow? && !q.Deletes?
    ensures Names(s) == Step(Reached(q, s), if Reply(s).fails then None else Some(Reached(q, s).world.vars))
    ensures Asking(s) == Step(Reached(q, s), !Reply(s).fails)
    ensures Posted(s) == Step(Reached(q, s), ReadingOf(Reached(q, s).world, Reply(s)))
  {
    hide Happens;
  }

  lemma DeletionAnswer(s: Stage, before: Option<string>, k: nat)
    ensures Deletion(s, Name(k)) ==
            Step(Reached(Deletes(before, k), s), if Reply(s).fails then None else Some(Reply(s).reported))
  {
    hide Happens;
  }

  lemma WaitingAnswer(s: Stage, before: Option<string>, done: nat, deadline: nat)
    ensures var n := Reached(WhoServesNow(before, done, deadline), s);
            Posted(Slept(s)) == Step(n, ReadingOf(n.world, Reply(s)))
  {
    hide Happens;
  }

  // ---------------------------------------------------------------- the steps of the command

  lemma LooksInSteps(s: Stage, confirm: bool) returns (n: nat)
    ensures n <= 3
    ensures var look := LookedBefore(s);
            After(confirm, State(WhatIsSet, s), n)
            == State(if !look.value.Reading? then Ended(Incomplete)
                     else if confirm then IsSet(look.value.deployment, 0) else Ended(DryRun), look.stage)
  {
    hide Names, Asking, Posted, Reached, Reply, ReadingOf;
    var c := State(WhatIsSet, s);
    NamesAnswer(s, WhatIsSet);
    Once(confirm, c);
    if Names(s).value.None? { return 1; }
    var t := Names(s).stage;
    NamesAnswer(t, WhatIsDeployed);
    Once(confirm, State(WhatIsDeployed, t));
    AfterOn(confirm, c, 1, 1);
    if !Asking(t).value { return 2; }
    var u := Asking(t).stage;
    NamesAnswer(u, WhoServes);
    Once(confirm, State(WhoServes, u));
    AfterOn(confirm, c, 2, 1);
    return 3;
  }

  lemma DeletesInSteps(s: Stage, before: Option<string>, k: nat) returns (n: nat)
    requires k < |ARMED|
    ensures n <= 3
    ensures var gone := Deleted(s, ARMED[k]);
            After(true, State(IsSet(before, k), s), n)
            == State(if gone.value then FromName(before, k + 1, gone.stage.world.now) else Ended(Incomplete), gone.stage)
  {
    hide Names, Deletion, Reached, Reply, FromName;
    var c := State(IsSet(before, k), s);
    NamesAnswer(s, c.question);
    Once(true, c);
    var t := Names(s).stage;
    if Names(s).value.None? || Name(k) !in t.world.vars { return 1; }
    DeletionAnswer(t, before, k);
    Once(true, State(Deletes(before, k), t));
    AfterOn(true, c, 1, 1);
    if Deletion(t, Name(k)).value != Some(true) { return 2; }
    var u := Deletion(t, Name(k)).stage;
    NamesAnswer(u, IsGone(before, k));
    Once(true, State(IsGone(before, k), u));
    AfterOn(true, c, 2, 1);
    return 3;
  }

  lemma {:induction false} DeletesAllInSteps(s: Stage, before: Option<string>, k: nat) returns (n: nat)
    requires k <= |ARMED|
    ensures n <= 3 * k
    ensures var gone := DeletedAll(s, k);
            After(true, State(IsSet(before, 0), s), n)
            == State(if gone.value then FromName(before, k, gone.stage.world.now) else Ended(Incomplete), gone.stage)
  {
    hide Deleted, Moved;
    if k == 0 { return 0; }
    var fewer := DeletedAll(s, k - 1);
    n := DeletesAllInSteps(s, before, k - 1);
    if fewer.value {
      var m := DeletesInSteps(fewer.stage, before, k - 1);
      AfterOn(true, State(IsSet(before, 0), s), n, m);
      n := n + m;
    }
  }

  lemma {:induction false} WaitsInSteps(s: Stage, before: Option<string>, done: nat, deadline: nat) returns (n: nat)
    requires s.world.now < deadline
    ensures n > 0 && 10_000 * (n - 1) < deadline - s.world.now
    ensures var r := Awaited(s, before, done, deadline);
            After(true, State(WhoServesNow(before, done, deadline), s), n)
            == State(if r.value.Reading? then IsBack(0, r.value, done, true) else Ended(Incomplete), r.stage)
    decreases deadline - s.world.now
  {
    hide Posted, ReadingOf, Reached, Reply;
    var c := State(WhoServesNow(before, done, deadline), s);
    WaitingAnswer(s, before, done, deadline);
    PostedLater(Slept(s));
    Once(true, c);
    var t := Posted(Slept(s)).stage;
    n := 1;
    if !Decides(Posted(Slept(s)).value, before, done) && t.world.now < deadline {
      var m := WaitsInSteps(t, before, done, deadline);
      AfterOn(true, c, 1, m);
      n := 1 + m;
    }
  }

  lemma {:induction false} ChecksInSteps(s: Stage, r: Reading, done: nat, k: nat) returns (n: nat)
    requires 0 < k <= |ARMED| && r.Reading?
    ensures n <= k
    ensures var absent := Absent(s, k);
            After(true, State(IsBack(0, r, done, true), s), n)
            == State(if absent.value.None? then Ended(Incomplete)
                     else if k < |ARMED| then IsBack(k, r, done, absent.value.value)
                     else if absent.value.value && SaysDisarmed(r) then Ended(Complete(r, done)) else Ended(Incomplete),
                     absent.stage)
  {
    hide Names, Reached, Reply, SaysDisarmed;
    var c := State(IsBack(0, r, done, true), s);
    if k == 1 {
      NamesAnswer(s, c.question);
      Once(true, c);
      assert Absent(s, 0) == Step(s, Some(true));
      return 1;
    }
    var fewer := Absent(s, k - 1);
    n := ChecksInSteps(s, r, done, k - 1);
    if fewer.value.Some? {
      var q := IsBack(k - 1, r, done, fewer.value.value);
      NamesAnswer(fewer.stage, q);
      Once(true, State(q, fewer.stage));
      AfterOn(true, c, n, 1);
      n := n + 1;
    }
  }

  lemma SaysIsDisarmed(r: Reading)
    requires r.Reading?
    ensures SaysDisarmed(r) <==> Disarmed(r)
  {
  }

  lemma CarriesOutInSteps(s: Stage, before: Option<string>) returns (n: nat)
    ensures n <= 105
    ensures var carried := Carried(s, before);
            After(true, State(IsSet(before, 0), s), n) == State(Ended(carried.value), carried.stage)
  {
    hide DeletedAll, Asking, Awaited, Absent, Disarmed, SaysDisarmed, Reached, Reply, After;
    var c := State(IsSet(before, 0), s);
    n := DeletesAllInSteps(s, before, |ARMED|);
    var deleted := DeletedAll(s, |ARMED|);
    if !deleted.value { return; }
    var done := deleted.stage.world.now;
    var q := Redeploys(before, done);
    NamesAnswer(deleted.stage, q);
    Once(true, State(q, deleted.stage));
    AfterOn(true, c, n, 1);
    n := n + 1;
    var asked := Asking(deleted.stage);
    if !asked.value { return; }
    var deadline := asked.stage.world.now + 600_000;
    var m := WaitsInSteps(asked.stage, before, done, deadline);
    AfterOn(true, c, n, m);
    n := n + m;
    var r := Awaited(asked.stage, before, done, deadline);
    if !r.value.Reading? { return; }
    SaysIsDisarmed(r.value);
    m := ChecksInSteps(r.stage, r.value, done, |ARMED|);
    AfterOn(true, c, n, m);
    n := n + m;
  }

  /** Every run of the command is a run of this machine, of at most 108 interactions: 3 to look, 3 for each of
      eleven names, the redeploy, 60 questions, and 11 lists. */
  lemma RunsInSteps(s: Stage, confirm: bool) returns (n: nat)
    ensures n <= 108
    ensures After(confirm, State(WhatIsSet, s), n) == State(Ended(Performed(s, confirm).value), Performed(s, confirm).stage)
  {
    hide LookedBefore, Carried, After;
    n := LooksInSteps(s, confirm);
    var look := LookedBefore(s);
    if look.value.Reading? && confirm {
      var m := CarriesOutInSteps(look.stage, look.value.deployment);
      AfterOn(true, State(WhatIsSet, s), n, m);
      n := n + m;
    }
  }

  // ---------------------------------------------------------------- without confirmation

  /** The world after some turns in which nobody but the platform did anything. */
  function Watched(w: World, turns: seq<Turn>): World {
    if turns == [] then w else HappenAll(Watched(w, turns[..|turns| - 1]), turns[|turns| - 1].events)
  }

  predicate CanLook(s: Stage) {
    && |s.turns| >= 3 && !s.turns[0].fails && !s.turns[1].fails
    && ReadingOf(Watched(s.world, s.turns[..3]), s.turns[2]).Reading?
  }

  /** Without `--confirm` the command does nothing: at most three questions are put, and the world is what the
      others made of it meanwhile. It ends as a dry run exactly when the variables and the deployments can be
      listed and the serving container answers. */
  lemma DryRunOnlyLooks(s: Stage) returns (n: nat)
    ensures n <= 3 && n <= |s.turns|
    ensures Performed(s, false).stage == Stage(Watched(s.world, s.turns[..n]), s.turns[n..])
    ensures Performed(s, false).value == if CanLook(s) then DryRun else Incomplete
  {
    hide HappenAll, ReadingOf;
    var turns := s.turns;
    assert Watched(s.world, []) == s.world;
    if |turns| > 0 { WatchedOn(s.world, turns, 0); }
    if |turns| > 1 { WatchedOn(s.world, turns, 1); }
    if |turns| > 2 { WatchedOn(s.world, turns, 2); }
    if |turns| == 0 { return 0; }
    if turns[0].fails || |turns| == 1 { return 1; }
    assert turns[1..][1..] == turns[2..];
    if turns[1].fails || |turns| == 2 { return 2; }
    assert turns[2..][1..] == turns[3..];
    return 3;
  }

  lemma WatchedOn(w: World, turns: seq<Turn>, n: nat)
    requires n < |turns|
    ensures Watched(w, turns[..n + 1]) == HappenAll(Watched(w, turns[..n]), turns[n].events)
  {
    assert turns[..n + 1][..n] == turns[..n];
  }
}
