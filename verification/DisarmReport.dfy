/** What the report of the disarm command is worth: on every platform and every run of it, as long as nobody
    puts an armed variable back; that it comes when nothing stands in the way; and where it stops. */
module DisarmReport {
  import opened Wrappers
  import opened Disarm

  // ---------------------------------------------------------------- nobody re-arms

  /** Of the armed names, the first list holds none that the second does not. */
  predicate NoMoreArmed(a: set<string>, b: set<string>) {
    forall name <- ARMED :: name in a ==> name in b
  }

  predicate NoneArmed(names: set<string>) {
    forall name <- ARMED :: name !in names
  }

  predicate Rearms(e: Event) {
    e.Add? && e.name in ARMED
  }

  predicate Unarming(es: seq<Event>) {
    forall e <- es :: !Rearms(e)
  }

  /** What holds from one moment to any later one as long as nobody puts an armed variable back. */
  ghost predicate Follows(w: World, n: World) {
    && w.now <= n.now && NoMoreArmed(n.vars, w.vars) && Coherent(n)
    && w.containers.Keys <= n.containers.Keys
    && (forall id <- w.containers :: n.containers[id] == w.containers[id])
    && (forall id <- n.containers | id !in w.containers ::
          NoMoreArmed(n.containers[id].captured, w.vars) && w.now <= n.containers[id].startedAt)
  }

  lemma FollowsOn(a: World, b: World, c: World)
    requires Follows(a, b) && Follows(b, c)
    ensures Follows(a, c)
  {
    hide Coherent;
  }

  lemma EventFollows(w: World, e: Event)
    requires Coherent(w) && !Rearms(e)
    ensures Follows(w, Happens(w, e))
  {
  }

  lemma {:induction false} EventsFollow(w: World, es: seq<Event>)
    requires Coherent(w) && Unarming(es)
    ensures Follows(w, HappenAll(w, es))
  {
    hide Rearms, Happens, Follows;
    if es == [] {
      StaysAsItIs(w);
    } else {
      var fewer, last := es[..|es| - 1], es[|es| - 1];
      EventsFollow(w, fewer);
      assert last in es;
      CoherentAfter(w, HappenAll(w, fewer));
      EventFollows(HappenAll(w, fewer), last);
      FollowsOn(w, HappenAll(w, fewer), HappenAll(w, es));
    }
  }

  lemma StaysAsItIs(w: World)
    requires Coherent(w)
    ensures Follows(w, w)
  {
  }

  lemma CoherentAfter(w: World, n: World)
    requires Follows(w, n)
    ensures Coherent(n)
  {
  }

  /** A platform with the rest of a run in which nobody re-arms it. */
  predicate Quiet(s: Stage) {
    Coherent(s.world) && forall t <- s.turns :: Unarming(t.events)
  }

  ghost predicate Leads(s: Stage, t: Stage) {
    Quiet(t) && Follows(s.world, t.world)
  }

  lemma LeadsOn(a: Stage, b: Stage, c: Stage)
    requires Leads(a, b) && Leads(b, c)
    ensures Leads(a, c)
  {
    hide Quiet, Follows;
    FollowsOn(a.world, b.world, c.world);
  }

  lemma LeadsNowhere(s: Stage)
    requires Quiet(s)
    ensures Leads(s, s)
  {
    StaysAsItIs(s.world);
  }

  lemma NextLeads(s: Stage)
    requires Quiet(s)
    ensures Leads(s, Next(s).stage)
  {
    hide Follows, Unarming, HappenAll;
    if s.turns == [] {
      StaysAsItIs(s.world);
    } else {
      assert s.turns[0] in s.turns;
      EventsFollow(s.world, s.turns[0].events);
      CoherentAfter(s.world, Next(s).stage.world);
    }
  }

  lemma AnswersLead(s: Stage)
    requires Quiet(s)
    ensures Leads(s, Names(s).stage) && Leads(s, Asking(s).stage) && Leads(s, Posted(s).stage)
  {
    hide Next, Leads;
    NextLeads(s);
  }

  lemma DeletionLeads(s: Stage, name: string)
    requires Quiet(s)
    ensures Leads(s, Deletion(s, name).stage)
  {
    hide Next;
    NextLeads(s);
  }

  lemma SleepLeads(s: Stage)
    requires Quiet(s)
    ensures Leads(s, Slept(s))
  {
  }

  lemma LeadsQuietly(s: Stage, t: Stage)
    requires Leads(s, t)
    ensures Quiet(t)
  {
  }

  lemma DeletedLeads(s: Stage, name: string)
    requires Quiet(s)
    ensures Leads(s, Deleted(s, name).stage)
    ensures Deleted(s, name).value ==> name !in Deleted(s, name).stage.world.vars
  {
    hide Names, Deletion, Quiet, Leads;
    var before := Names(s);
    AnswersLead(s);
    LeadsQuietly(s, before.stage);
    if before.value.Some? && name in before.value.value {
      var deletion := Deletion(before.stage, name);
      DeletionLeads(before.stage, name);
      LeadsOn(s, before.stage, deletion.stage);
      if deletion.value == Some(true) {
        LeadsQuietly(s, deletion.stage);
        AnswersLead(deletion.stage);
        LeadsOn(s, deletion.stage, Names(deletion.stage).stage);
      }
    }
    ListedIsThere(s);
    if before.value.Some? { ListedIsThere(Deletion(before.stage, name).stage); }
  }

  lemma ListedIsThere(s: Stage)
    ensures Names(s).value.Some? ==> Names(s).value.value == Names(s).stage.world.vars
  {
    hide Next;
  }

  /** From the m-th deletion to the n-th. */
  lemma {:induction false} DeletedAllLeads(s: Stage, m: nat, n: nat)
    requires Quiet(s) && m <= n <= |ARMED|
    ensures Leads(s, DeletedAll(s, n).stage) && Leads(DeletedAll(s, m).stage, DeletedAll(s, n).stage)
    decreases n
  {
    hide Deleted, Quiet, Leads;
    if n == 0 {
      LeadsNowhere(s);
    } else {
      var fewer, all := DeletedAll(s, n - 1), DeletedAll(s, n);
      DeletedAllLeads(s, if m < n then m else n - 1, n - 1);
      LeadsQuietly(s, fewer.stage);
      LeadsNowhere(fewer.stage);
      if fewer.value { DeletedLeads(fewer.stage, ARMED[n - 1]); }
      LeadsOn(s, fewer.stage, all.stage);
      LeadsQuietly(s, all.stage);
      LeadsNowhere(all.stage);
      if m < n { LeadsOn(DeletedAll(s, m).stage, fewer.stage, all.stage); }
    }
  }

  lemma {:induction false} AwaitedLeads(s: Stage, before: Option<string>, deletionsDone: nat, deadline: nat)
    requires Quiet(s)
    ensures Leads(s, Awaited(s, before, deletionsDone, deadline).stage)
    decreases deadline - s.world.now
  {
    hide Posted, Decides, Quiet, Leads;
    if s.world.now >= deadline {
      LeadsNowhere(s);
    } else {
      var r := Posted(Slept(s));
      PostedLater(Slept(s));
      SleepLeads(s);
      LeadsQuietly(s, Slept(s));
      AnswersLead(Slept(s));
      LeadsOn(s, Slept(s), r.stage);
      LeadsQuietly(s, r.stage);
      if !Decides(r.value, before, deletionsDone) {
        AwaitedLeads(r.stage, before, deletionsDone, deadline);
        LeadsOn(s, r.stage, Awaited(s, before, deletionsDone, deadline).stage);
      }
    }
  }

  lemma {:induction false} AbsentLeads(s: Stage, n: nat)
    requires Quiet(s) && n <= |ARMED|
    ensures Leads(s, Absent(s, n).stage)
    ensures Absent(s, n).value == Some(true) ==> forall k | 0 <= k < n :: ARMED[k] !in Absent(s, n).stage.world.vars
  {
    hide Names, Quiet, Leads;
    if n == 0 {
      LeadsNowhere(s);
    } else {
      var fewer := Absent(s, n - 1);
      AbsentLeads(s, n - 1);
      LeadsQuietly(s, fewer.stage);
      AnswersLead(fewer.stage);
      ListedIsThere(fewer.stage);
      if fewer.value.Some? {
        var names := Names(fewer.stage);
        LeadsOn(s, fewer.stage, names.stage);
        forall k | 0 <= k < n - 1
          ensures ARMED[k] !in fewer.stage.world.vars ==> ARMED[k] !in names.stage.world.vars
        {
          if ARMED[k] !in fewer.stage.world.vars { GoneStaysGone(fewer.stage, names.stage, ARMED[k]); }
        }
      }
    }
  }

  lemma GoneStaysGone(s: Stage, t: Stage, name: string)
    requires Leads(s, t) && name in ARMED && name !in s.world.vars
    ensures name !in t.world.vars
    ensures forall id <- t.world.containers | id !in s.world.containers :: name !in t.world.containers[id].captured
  {
  }

  lemma LookedLeads(s: Stage)
    requires Quiet(s)
    ensures Leads(s, LookedBefore(s).stage)
  {
    hide Names, Asking, Posted, Quiet, Leads;
    AnswersLead(s);
    var present := Names(s);
    LeadsQuietly(s, present.stage);
    AnswersLead(present.stage);
    var listed := Asking(present.stage);
    LeadsOn(s, present.stage, listed.stage);
    LeadsQuietly(s, listed.stage);
    AnswersLead(listed.stage);
    LeadsOn(s, listed.stage, Posted(listed.stage).stage);
  }

  /** Whatever happens after the deletions, it happens after them. */
  lemma CarriedLeads(s: Stage, before: Option<string>)
    requires Quiet(s)
    ensures Leads(DeletedAll(s, |ARMED|).stage, Carried(s, before).stage)
  {
    hide DeletedAll, Asking, Awaited, Absent, Quiet, Leads, Disarmed;
    var deleted := DeletedAll(s, |ARMED|);
    DeletedAllLeads(s, |ARMED|, |ARMED|);
    LeadsQuietly(s, deleted.stage);
    LeadsNowhere(deleted.stage);
    AnswersLead(deleted.stage);
    var asked := Asking(deleted.stage);
    if deleted.value && asked.value {
      LeadsQuietly(deleted.stage, asked.stage);
      var done, deadline := deleted.stage.world.now, asked.stage.world.now + 600_000;
      AwaitedLeads(asked.stage, before, done, deadline);
      var r := Awaited(asked.stage, before, done, deadline);
      LeadsOn(deleted.stage, asked.stage, r.stage);
      LeadsQuietly(deleted.stage, r.stage);
      AbsentLeads(r.stage, |ARMED|);
      LeadsOn(deleted.stage, r.stage, Absent(r.stage, |ARMED|).stage);
    }
  }

  // ---------------------------------------------------------------- what the deletions are worth

  /** Once the deletion of an armed variable is verified, no container started from then on captures it, to
      the end of the run and whatever its outcome; and it stays unset. */
  lemma VerifiedDeletionHolds(s: Stage, k: nat)
    requires Quiet(s) && k < |ARMED| && LookedBefore(s).value.Reading?
    requires DeletedAll(LookedBefore(s).stage, k + 1).value
    ensures var gone, end := DeletedAll(LookedBefore(s).stage, k + 1).stage.world, Performed(s, true).stage.world;
            && Follows(gone, end) && ARMED[k] !in gone.vars && ARMED[k] !in end.vars
            && forall id <- end.containers | id !in gone.containers :: ARMED[k] !in end.containers[id].captured
  {
    hide Deleted, LookedBefore, DeletedAll, Carried, Quiet;
    var before := LookedBefore(s);
    LookedLeads(s);
    LeadsQuietly(s, before.stage);
    var gone := DeletedAll(before.stage, k + 1);
    DeletedAllLeads(before.stage, k + 1, |ARMED|);
    CarriedLeads(before.stage, before.value.deployment);
    var end := Carried(before.stage, before.value.deployment).stage;
    LeadsOn(gone.stage, DeletedAll(before.stage, |ARMED|).stage, end);
    LastIsGone(before.stage, k + 1);
    GoneStaysGone(gone.stage, end, ARMED[k]);
  }

  lemma LastIsGone(s: Stage, n: nat)
    requires Quiet(s) && 0 < n <= |ARMED| && DeletedAll(s, n).value
    ensures ARMED[n - 1] !in DeletedAll(s, n).stage.world.vars && DeletedAll(s, n - 1).value
  {
    hide Deleted, Quiet;
    DeletedAllLeads(s, n - 1, n - 1);
    LeadsQuietly(s, DeletedAll(s, n - 1).stage);
    DeletedLeads(DeletedAll(s, n - 1).stage, ARMED[n - 1]);
  }

  /** The secret is the first: its deletion is verified before anything else is touched, so what is said above
      holds of it however far the run gets after that. */
  lemma SecretGoesFirst(s: Stage)
    requires Quiet(s) && LookedBefore(s).value.Reading? && Deleted(LookedBefore(s).stage, ARMED[0]).value
    ensures var gone := Deleted(LookedBefore(s).stage, ARMED[0]).stage.world;
            var end := Performed(s, true).stage.world;
            && ARMED[0] == "CONSUMER_TREASURY_SOLANA_SECRET_KEY" && ARMED[0] !in end.vars && Follows(gone, end)
            && forall id <- end.containers | id !in gone.containers :: ARMED[0] !in end.containers[id].captured
  {
    hide Deleted, Performed, LookedBefore, Quiet;
    assert DeletedAll(LookedBefore(s).stage, 1) == Deleted(LookedBefore(s).stage, ARMED[0]) by {
      assert DeletedAll(LookedBefore(s).stage, 0) == Step(LookedBefore(s).stage, true);
    }
    VerifiedDeletionHolds(s, 0);
  }

  lemma {:induction false} AllAreGone(s: Stage, n: nat)
    requires Quiet(s) && n <= |ARMED| && DeletedAll(s, n).value
    ensures forall k | 0 <= k < n :: ARMED[k] !in DeletedAll(s, n).stage.world.vars
  {
    hide Deleted, Quiet;
    if n > 0 {
      LastIsGone(s, n);
      AllAreGone(s, n - 1);
      DeletedAllLeads(s, n - 1, n);
      forall k | 0 <= k < n - 1
        ensures ARMED[k] !in DeletedAll(s, n).stage.world.vars
      {
        GoneStaysGone(DeletedAll(s, n - 1).stage, DeletedAll(s, n).stage, ARMED[k]);
      }
    }
  }

  // ---------------------------------------------------------------- what the waiting finds

  /** The platform after i questions, and the answer to the next one. */
  function Questioned(s: Stage, i: nat): Stage {
    if i == 0 then s else Posted(Slept(Questioned(s, i - 1))).stage
  }

  function Answer(s: Stage, i: nat): Reading {
    Posted(Slept(Questioned(s, i))).value
  }

  lemma {:induction false} QuestionedLater(s: Stage, i: nat)
    ensures s.world.now + 10_000 * i <= Questioned(s, i).world.now
  {
    hide Posted;
    if i > 0 {
      QuestionedLater(s, i - 1);
      PostedLater(Slept(Questioned(s, i - 1)));
    }
  }

  lemma {:induction false} QuestionedOn(s: Stage, i: nat)
    ensures Questioned(Posted(Slept(s)).stage, i) == Questioned(s, i + 1)
  {
    hide Posted;
    if i > 0 { QuestionedOn(s, i - 1); }
  }

  /** Which question ends the waiting: the first whose answer decides, before which the deadline has not
      come; or the deadline itself, with no deciding answer before it. At most one question fits in every
      ten seconds. */
  lemma {:induction false} AwaitedIsFirst(s: Stage, before: Option<string>, deletionsDone: nat, deadline: nat) returns (n: nat)
    ensures forall i | 0 <= i < n :: !Decides(Answer(s, i), before, deletionsDone) && Questioned(s, i).world.now < deadline
    ensures var r := Awaited(s, before, deletionsDone, deadline);
            if Questioned(s, n).world.now < deadline then
              && r == Step(Questioned(s, n + 1), Answer(s, n)) && Decides(r.value, before, deletionsDone)
              && 10_000 * n < deadline - s.world.now
            else r == Step(Questioned(s, n), Unreachable)
    decreases deadline - s.world.now
  {
    hide Posted, Decides;
    assert Questioned(s, 0) == s && Questioned(s, 1) == Posted(Slept(s)).stage;
    if s.world.now >= deadline || Decides(Answer(s, 0), before, deletionsDone) {
      n := 0;
    } else {
      var t := Posted(Slept(s)).stage;
      PostedLater(Slept(s));
      var m := AwaitedIsFirst(t, before, deletionsDone, deadline);
      n := m + 1;
      forall i | 0 < i <= n + 1
        ensures Questioned(t, i - 1) == Questioned(s, i)
      {
        QuestionedOn(s, i - 1);
      }
      forall i | 0 <= i < n
        ensures !Decides(Answer(s, i), before, deletionsDone) && Questioned(s, i).world.now < deadline
      {
        if i > 0 { assert Answer(t, i - 1) == Answer(s, i); }
      }
      QuestionedLater(s, n);
    }
  }

  /** With the ten minutes the command allows, it asks at most sixty times. */
  lemma SixtyQuestions(s: Stage, before: Option<string>, deletionsDone: nat) returns (asked: nat)
    ensures asked <= 60 && Awaited(s, before, deletionsDone, s.world.now + 600_000).stage == Questioned(s, asked)
  {
    hide Posted, Decides, Awaited, Questioned;
    var n := AwaitedIsFirst(s, before, deletionsDone, s.world.now + 600_000);
    if Questioned(s, n).world.now < s.world.now + 600_000 {
      asked := n + 1;
    } else {
      asked := n;
      if n > 0 { QuestionedLater(s, n - 1); }
    }
  }

  /** An answer that is taken is that of a container of the platform. */
  lemma AnswerIsServed(s: Stage, before: Option<string>, deletionsDone: nat, deadline: nat)
    requires Awaited(s, before, deletionsDone, deadline).value.Reading?
    ensures var r := Awaited(s, before, deletionsDone, deadline);
            && Accepts(r.value, before, deletionsDone) && r.value.id in r.stage.world.containers
            && r.value.startedAt == r.stage.world.containers[r.value.id].startedAt
            && r.value.deployment == r.stage.world.containers[r.value.id].deployment
  {
    hide Accepts;
    var n := AwaitedIsFirst(s, before, deletionsDone, deadline);
    hide Awaited;
    assert Questioned(s, n + 1) == Posted(Slept(Questioned(s, n))).stage;
  }

  // ---------------------------------------------------------------- what completion is worth

  /** Reporting completion means: the container that answered started after the last verified deletion, under
      another deployment than before, captured none of the armed variables, and described itself as disarmed;
      and none of them is set at the end. */
  lemma CompleteMeansDisarmed(s: Stage)
    requires Quiet(s) && Performed(s, true).value.Complete?
    ensures LookedBefore(s).value.Reading? && DeletedAll(LookedBefore(s).stage, |ARMED|).value
    ensures var end, o := Performed(s, true).stage.world, Performed(s, true).value;
            var a := o.answer;
            && o.deletionsDone == DeletedAll(LookedBefore(s).stage, |ARMED|).stage.world.now
            && Accepts(a, LookedBefore(s).value.deployment, o.deletionsDone) && Disarmed(a)
            && a.id in end.containers && end.containers[a.id].startedAt == a.startedAt
            && end.containers[a.id].deployment == a.deployment
            && NoneArmed(end.containers[a.id].captured) && NoneArmed(end.vars)
  {
    hide LookedBefore, DeletedAll, Asking, Awaited, Absent, Quiet, Leads, Disarmed, Accepts;
    var look := LookedBefore(s);
    LookedLeads(s);
    LeadsQuietly(s, look.stage);
    var before := look.value.deployment;
    var deleted := DeletedAll(look.stage, |ARMED|);
    DeletedAllLeads(look.stage, |ARMED|, |ARMED|);
    AllAreGone(look.stage, |ARMED|);
    LeadsQuietly(look.stage, deleted.stage);
    AnswersLead(deleted.stage);
    var asked := Asking(deleted.stage);
    LeadsQuietly(deleted.stage, asked.stage);
    var done, deadline := deleted.stage.world.now, asked.stage.world.now + 600_000;
    var r := Awaited(asked.stage, before, done, deadline);
    AwaitedLeads(asked.stage, before, done, deadline);
    AnswerIsServed(asked.stage, before, done, deadline);
    LeadsOn(deleted.stage, asked.stage, r.stage);
    LeadsQuietly(deleted.stage, r.stage);
    AbsentLeads(r.stage, |ARMED|);
    StillCaptured(deleted.stage, r.stage, Absent(r.stage, |ARMED|).stage, r.value, before, done);
  }

  /** A container that started after a moment captured nothing that was gone by then, and keeps it so. */
  lemma StillCaptured(done: Stage, read: Stage, end: Stage, r: Reading, before: Option<string>, deletionsDone: nat)
    requires Quiet(done) && Leads(done, read) && Leads(read, end) && deletionsDone == done.world.now
    requires Accepts(r, before, deletionsDone) && r.id in read.world.containers
    requires r.startedAt == read.world.containers[r.id].startedAt && r.deployment == read.world.containers[r.id].deployment
    requires forall k | 0 <= k < |ARMED| :: ARMED[k] !in done.world.vars
    ensures r.id in end.world.containers && end.world.containers[r.id] == read.world.containers[r.id]
    ensures NoneArmed(end.world.containers[r.id].captured)
  {
  }

  // ---------------------------------------------------------------- when it completes

  /** A turn in which nothing happens, nothing fails, and a deletion is carried out and reported. */
  predicate Smooth(t: Turn) {
    t.events == [] && !t.fails && !t.unreachable && t.applied && t.reported
  }

  predicate SmoothFor(turns: seq<Turn>, n: nat) {
    n <= |turns| && forall i | 0 <= i < n :: Smooth(turns[i])
  }

  /** The variables left after the first n deletions, and the turns these take: three for a variable that is
      there, one for one that is not. */
  function Left(vars: set<string>, n: nat): set<string>
    requires n <= |ARMED|
  {
    if n == 0 then vars else Left(vars, n - 1) - {ARMED[n - 1]}
  }

  function Cost(vars: set<string>, n: nat): nat
    requires n <= |ARMED|
  {
    if n == 0 then 0 else Cost(vars, n - 1) + if ARMED[n - 1] in Left(vars, n - 1) then 3 else 1
  }

  lemma {:induction false} LeftIsDisarmed(vars: set<string>, n: nat)
    requires n <= |ARMED|
    ensures Left(vars, n) <= vars && forall k | 0 <= k < n :: ARMED[k] !in Left(vars, n)
    ensures forall name <- vars :: name in Left(vars, n) || name in ARMED
  {
    if n > 0 { LeftIsDisarmed(vars, n - 1); }
  }

  lemma SmoothAfter(turns: seq<Turn>, m: nat, n: nat)
    requires SmoothFor(turns, n) && m <= n
    ensures SmoothFor(turns[m..], n - m)
  {
  }

  lemma SmoothNext(s: Stage)
    requires SmoothFor(s.turns, 1)
    ensures Next(s) == Step(Stage(s.world, s.turns[1..]), Some(s.turns[0]))
    ensures Names(s) == Step(Stage(s.world, s.turns[1..]), Some(s.world.vars))
    ensures Asking(s) == Step(Stage(s.world, s.turns[1..]), true)
    ensures Posted(s) == Step(Stage(s.world, s.turns[1..]), ReadingOf(s.world, s.turns[0]))
    ensures forall name :: Deletion(s, name) == Step(Stage(s.world.(vars := s.world.vars - {name}), s.turns[1..]), Some(true))
  {
  }

  lemma DeletedSmoothly(s: Stage, name: string)
    requires SmoothFor(s.turns, if name in s.world.vars then 3 else 1)
    ensures Deleted(s, name)
            == Step(Stage(s.world.(vars := s.world.vars - {name}), s.turns[if name in s.world.vars then 3 else 1..]), true)
  {
    hide Names, Deletion, Smooth;
    SmoothNext(s);
    if name in s.world.vars {
      var t, w := Stage(s.world, s.turns[1..]), s.world.(vars := s.world.vars - {name});
      SmoothAfter(s.turns, 1, 3);
      SmoothNext(t);
      assert t.turns[1..] == s.turns[2..];
      SmoothAfter(s.turns, 2, 3);
      SmoothNext(Stage(w, s.turns[2..]));
      assert s.turns[2..][1..] == s.turns[3..];
    } else {
      assert s.world.vars - {name} == s.world.vars;
    }
  }

  lemma {:induction false} DeletedAllSmoothly(s: Stage, n: nat)
    requires n <= |ARMED| && SmoothFor(s.turns, Cost(s.world.vars, n))
    ensures DeletedAll(s, n)
            == Step(Stage(s.world.(vars := Left(s.world.vars, n)), s.turns[Cost(s.world.vars, n)..]), true)
  {
    hide Deleted, Smooth;
    if n > 0 {
      var before, cost := Cost(s.world.vars, n - 1), Cost(s.world.vars, n);
      DeletedAllSmoothly(s, n - 1);
      SmoothAfter(s.turns, before, cost);
      var t := Stage(s.world.(vars := Left(s.world.vars, n - 1)), s.turns[before..]);
      DeletedSmoothly(t, ARMED[n - 1]);
      assert t.turns[cost - before..] == s.turns[cost..];
    }
  }

  lemma {:induction false} AbsentSmoothly(s: Stage, n: nat)
    requires n <= |ARMED| && SmoothFor(s.turns, n) && NoneArmed(s.world.vars)
    ensures Absent(s, n) == Step(Stage(s.world, s.turns[n..]), Some(true))
  {
    hide Names, Smooth;
    if n > 0 {
      AbsentSmoothly(s, n - 1);
      SmoothAfter(s.turns, n - 1, n);
      SmoothNext(Stage(s.world, s.turns[n - 1..]));
      assert s.turns[n - 1..][1..] == s.turns[n..];
      assert ARMED[n - 1] in ARMED;
    }
  }

  /** The turn of a smooth run in which step 4 asks for the first time, and the platform as it finds it. */
  function FirstAsk(vars: set<string>): nat {
    3 + Cost(vars, |ARMED|) + 1
  }

  function FirstFound(w: World, t: Turn): World {
    HappenAll(w.(now := w.now + 10_000, vars := Left(w.vars, |ARMED|)), t.events)
  }

  /** Nothing stands in the way: the platform answers, carries out and reports every deletion, and what serves
      at the first question of step 4, after that turn's events, will do and leaves nothing armed. What was
      armed at the start does not matter. */
  predicate Unhindered(s: Stage) {
    var ask := FirstAsk(s.world.vars);
    && SmoothFor(s.turns, ask) && ask < |s.turns| && SmoothFor(s.turns[ask + 1..], |ARMED|)
    && s.world.serving in s.world.containers
    && var found := FirstFound(s.world, s.turns[ask]);
       var answer := ReadingOf(found, s.turns[ask]);
       && Accepts(answer, s.world.containers[s.world.serving].deployment, s.world.now) && Disarmed(answer)
       && NoneArmed(found.vars)
  }

  /** Then it deletes everything that is armed, asks once, and reports completion. */
  lemma UnhinderedCompletes(s: Stage)
    requires Unhindered(s)
    ensures var ask := FirstAsk(s.world.vars);
            var found := FirstFound(s.world, s.turns[ask]);
            Performed(s, true)
            == Step(Stage(found, s.turns[ask + 1..][|ARMED|..]), Complete(ReadingOf(found, s.turns[ask]), s.world.now))
  {
    hide Left, Cost, Smooth, HappenAll, DeletedAll, Absent, Awaited, Disarmed, NoneArmed, Names, Asking, Posted, LookedBefore;
    var ask, vars, turns := FirstAsk(s.world.vars), s.world.vars, s.turns;
    LooksSmoothly(s, ask);
    SmoothAfter(turns, 3, ask);
    var t := Stage(s.world, turns[3..]);
    DeletedAllSmoothly(t, |ARMED|);
    var clear := Stage(s.world.(vars := Left(vars, |ARMED|)), turns[ask - 1..]);
    assert t.turns[Cost(vars, |ARMED|)..] == clear.turns;
    SmoothAfter(turns, ask - 1, ask);
    SmoothNext(clear);
    var asking := Stage(clear.world, turns[ask..]);
    assert clear.turns[1..] == asking.turns;
    AsksOnce(asking, s.world.containers[s.world.serving].deployment, s.world.now);
    assert asking.turns[0] == turns[ask] && asking.turns[1..] == turns[ask + 1..];
    AbsentSmoothly(Stage(FirstFound(s.world, turns[ask]), turns[ask + 1..]), |ARMED|);
  }

  lemma LooksSmoothly(s: Stage, n: nat)
    requires 3 <= n && SmoothFor(s.turns, n) && s.world.serving in s.world.containers
    ensures LookedBefore(s) == Step(Stage(s.world, s.turns[3..]), ReadingOf(s.world, s.turns[2]))
    ensures LookedBefore(s).value.Reading? && LookedBefore(s).value.deployment == s.world.containers[s.world.serving].deployment
  {
    hide Names, Asking, Posted;
    SmoothNext(s);
    SmoothAfter(s.turns, 1, n);
    var t := Stage(s.world, s.turns[1..]);
    SmoothNext(t);
    assert t.turns[1..] == s.turns[2..];
    SmoothAfter(s.turns, 2, n);
    SmoothNext(Stage(s.world, s.turns[2..]));
    assert s.turns[2..][1..] == s.turns[3..];
  }

  lemma AsksOnce(s: Stage, before: Option<string>, deletionsDone: nat)
    requires s.turns != []
    requires var found := HappenAll(s.world.(now := s.world.now + 10_000), s.turns[0].events);
             Accepts(ReadingOf(found, s.turns[0]), before, deletionsDone)
    ensures var found := HappenAll(s.world.(now := s.world.now + 10_000), s.turns[0].events);
            Awaited(s, before, deletionsDone, s.world.now + 600_000) == Step(Stage(found, s.turns[1..]), ReadingOf(found, s.turns[0]))
  {
    hide HappenAll, Accepts;
  }

  // ---------------------------------------------------------------- what the report does not say

  const DISARMED := Posture("READY", "absent", "disabled", "disabled", "read-only", ["eip155:8453"])

  /** A turn with these events and no trouble. */
  function With(es: seq<Event>): Turn {
    Turn(es, false, true, true, false, 200, DISARMED)
  }

  /** A run of the command in which something happens only just before the first question of step 4. */
  function Schedule(vars: set<string>, es: seq<Event>): seq<Turn> {
    seq(FirstAsk(vars), _ => With([])) + [With(es)] + seq(|ARMED|, _ => With([]))
  }

  lemma ScheduleCompletes(w: World, es: seq<Event>)
    requires w.serving in w.containers
    requires var n := FirstFound(w, With(es));
             && NoneArmed(n.vars) && n.serving in n.containers && n.containers[n.serving].startedAt > w.now
             && n.containers[n.serving].deployment.Some?
             && n.containers[n.serving].deployment != w.containers[w.serving].deployment
    ensures var run := Performed(Stage(w, Schedule(w.vars, es)), true);
            run.value == Complete(ReadingOf(FirstFound(w, With(es)), With(es)), w.now)
            && run.stage.world == FirstFound(w, With(es))
  {
    hide FirstFound, NoneArmed, FirstAsk, Performed;
    var ask, turns := FirstAsk(w.vars), Schedule(w.vars, es);
    assert turns[ask] == With(es);
    assert turns[ask + 1..] == seq(|ARMED|, _ => With([]));
    assert SmoothFor(turns, ask) && SmoothFor(turns[ask + 1..], |ARMED|);
    UnhinderedCompletes(Stage(w, turns));
  }

  lemma Happened(w: World, es: seq<Event>, e: Event)
    ensures HappenAll(w, es + [e]) == Happens(HappenAll(w, es), e)
    ensures HappenAll(w, []) == w
  {
    hide Happens;
    assert (es + [e])[..|es|] == es;
  }

  lemma InTurn(w: World, a: Event, b: Event, c: Event, d: Event)
    ensures HappenAll(w, [a, b, c, d]) == Happens(Happens(Happens(Happens(w, a), b), c), d)
    ensures HappenAll(w, [a, b]) == Happens(Happens(w, a), b)
    ensures HappenAll(w, [a]) == Happens(w, a)
  {
    hide Happens, HappenAll;
    Happened(w, [], a);
    assert [] + [a] == [a] && [a] + [b] == [a, b] && [a, b] + [c] == [a, b, c] && [a, b, c] + [d] == [a, b, c, d];
    Happened(w, [a], b);
    Happened(w, [a, b], c);
    Happened(w, [a, b, c], d);
  }

  lemma PutBack(w: World, id: Id, d: string)
    requires id !in w.containers
    ensures var es := [Add(ARMED[0]), Start(id, Some(d)), Serve(id), Remove(ARMED[0])];
            var left := Left(w.vars, |ARMED|);
            && FirstFound(w, With(es)) == World(w.now + 10_000, left,
                 w.containers[id := Container(Some(d), w.now + 10_000, left + {ARMED[0]})], id)
            && NoneArmed(left)
  {
    hide Left;
    var left := Left(w.vars, |ARMED|);
    LeftIsDisarmed(w.vars, |ARMED|);
    InTurn(w.(now := w.now + 10_000, vars := left), Add(ARMED[0]), Start(id, Some(d)), Serve(id), Remove(ARMED[0]));
    assert ARMED[0] !in left;
    assert left + {ARMED[0]} - {ARMED[0]} == left;
  }

  /** Why nobody may put a variable back. On every platform, whatever is armed, there is a run of the command
      in which it deletes everything, the secret is set again, captured by a new container and removed again
      while step 4 waits, every check passes, and completion is reported with the secret in the container
      that answered. */
  lemma PutBackIsCaptured(w: World, id: Id, d: string)
    requires Coherent(w) && id !in w.containers && Some(d) != w.containers[w.serving].deployment
    ensures var es := [Add(ARMED[0]), Start(id, Some(d)), Serve(id), Remove(ARMED[0])];
            var run := Performed(Stage(w, Schedule(w.vars, es)), true);
            var end := run.stage.world;
            && run.value.Complete? && run.value.answer.Reading? && run.value.answer.id == id && NoneArmed(end.vars)
            && id in end.containers && ARMED[0] in end.containers[id].captured
  {
    hide Schedule, Performed, FirstFound, NoneArmed;
    PutBack(w, id, d);
    ScheduleCompletes(w, [Add(ARMED[0]), Start(id, Some(d)), Serve(id), Remove(ARMED[0])]);
  }

  lemma Replaced(w: World, id: Id, d: string)
    requires id !in w.containers
    ensures var es := [Start(id, Some(d)), Serve(id)];
            var left := Left(w.vars, |ARMED|);
            && FirstFound(w, With(es))
               == World(w.now + 10_000, left, w.containers[id := Container(Some(d), w.now + 10_000, left)], id)
            && NoneArmed(left) && Unarming(es)
  {
    hide Left;
    LeftIsDisarmed(w.vars, |ARMED|);
    InTurn(w.(now := w.now + 10_000, vars := Left(w.vars, |ARMED|)), Start(id, Some(d)), Serve(id), Serve(id), Serve(id));
  }

  /** And the report is about the container that answered, even when nobody puts anything back. On every
      platform with a container that holds the secret there is a quiet run of the command that completes with
      a clean container, after which the platform needs one event to serve the old one and its secret. */
  lemma OldContainerMayServeAgain(w: World, holder: Id, id: Id, d: string)
    requires Coherent(w) && holder in w.containers && ARMED[0] in w.containers[holder].captured
    requires id !in w.containers && Some(d) != w.containers[w.serving].deployment
    ensures var es := [Start(id, Some(d)), Serve(id)];
            var run := Performed(Stage(w, Schedule(w.vars, es)), true);
            var later := HappenAll(run.stage.world, [Serve(holder)]);
            && Quiet(Stage(w, Schedule(w.vars, es))) && Unarming([Serve(holder)])
            && run.value.Complete? && run.value.answer.Reading? && run.value.answer.id == id
            && later.serving in later.containers && ARMED[0] in later.containers[later.serving].captured
  {
    var es := [Start(id, Some(d)), Serve(id)];
    Replaced(w, id, d);
    assert Quiet(Stage(w, Schedule(w.vars, es))) by { QuietSchedule(w, es); }
    hide Schedule, Performed, FirstFound, NoneArmed;
    ScheduleCompletes(w, es);
    InTurn(FirstFound(w, With(es)), Serve(holder), Serve(holder), Serve(holder), Serve(holder));
  }

  lemma QuietSchedule(w: World, es: seq<Event>)
    requires Coherent(w) && Unarming(es)
    ensures Quiet(Stage(w, Schedule(w.vars, es)))
  {
    hide FirstAsk, Coherent;
  }
}
