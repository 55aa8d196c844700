/** The classifier of scripts/lint/git-destructive.ts: what a git command would destroy, from its words. */
module GitCommand {
  import opened Wrappers
  import opened Slices
  import opened Text

  datatype Kind = ResetHard | CleanForce | RestoreWorktree | CheckoutOverwrite | BranchSwitchOverwrite

  /** The verdict; of its prose only what varies is kept, the reach of a forced clean. */
  datatype Verdict = Safe | Destructive(kind: Kind, paths: seq<string>, directories: bool, ignored: bool)

  const GLOBAL_WITH_VALUE: set<string> := {"-C", "-c", "--git-dir", "--work-tree", "--namespace", "--exec-path"}

  // ---------------------------------------------------------------- reading the words

  predicate IsOption(token: string) {
    token != "" && token[0] == '-'
  }

  /** Where the subcommand is when the words up to i have been read. */
  function SubcommandFrom(argv: seq<string>, i: nat): (at: Option<nat>)
    ensures at.Some? ==> i <= at.value < |argv| && !IsOption(argv[at.value])
    decreases |argv| - i
  {
    if i >= |argv| then None
    else if !IsOption(argv[i]) then Some(i)
    else if argv[i] in GLOBAL_WITH_VALUE then SubcommandFrom(argv, i + 2)
    else SubcommandFrom(argv, i + 1)
  }

  function SkipGit(argv: seq<string>): nat {
    if argv != [] && argv[0] == "git" then 1 else 0
  }

  method SubcommandAt(argv: seq<string>) returns (at: Option<nat>)
    ensures at == SubcommandFrom(argv, SkipGit(argv))
  {
    var i := 0;
    if i < |argv| && argv[i] == "git" { i := 1; }
    while i < |argv|
      invariant SubcommandFrom(argv, i) == SubcommandFrom(argv, SkipGit(argv))
    {
      if !IsOption(argv[i]) { return Some(i); }
      i := if argv[i] in GLOBAL_WITH_VALUE then i + 2 else i + 1;
    }
    return None;
  }

  predicate HasFlag(args: seq<string>, names: set<string>) {
    exists a <- args :: a in names || exists n <- names :: StartsWith(a, n + "=")
  }

  predicate IsLetter(c: char) {
    'a' <= c <= 'z' || 'A' <= c <= 'Z'
  }

  /** One dash and letters only, among them this one. */
  predicate IsCluster(a: string, letter: char) {
    |a| >= 2 && a[0] == '-' && (forall i | 1 <= i < |a| :: IsLetter(a[i])) && letter in a[1..]
  }

  predicate HasShort(args: seq<string>, letter: char) {
    exists a <- args :: IsCluster(a, letter)
  }

  function PositionalsFrom(args: seq<string>, afterSeparator: bool): seq<string> {
    if args == [] then []
    else if args[0] == "--" then PositionalsFrom(args[1..], true)
    else if !afterSeparator && IsOption(args[0]) then PositionalsFrom(args[1..], afterSeparator)
    else [args[0]] + PositionalsFrom(args[1..], afterSeparator)
  }

  method Positionals(args: seq<string>) returns (out: seq<string>)
    ensures out == PositionalsFrom(args, false)
  {
    out := [];
    var afterSeparator := false;
    for i := 0 to |args|
      invariant out + PositionalsFrom(args[i..], afterSeparator) == PositionalsFrom(args, false)
    {
      assert args[i..][1..] == args[i + 1..];
      if args[i] == "--" {
        afterSeparator := true;
      } else if afterSeparator || !IsOption(args[i]) {
        out := out + [args[i]];
      }
    }
  }

  // ---------------------------------------------------------------- the verdict

  predicate Separated(argv: seq<string>) {
    "--" in argv
  }

  function Judge(sub: string, args: seq<string>, separated: bool): Verdict {
    if sub == "reset" then
      if HasFlag(args, {"--hard"}) then Destructive(ResetHard, [], false, false) else Safe
    else if sub == "clean" then
      if HasShort(args, 'f') || HasFlag(args, {"--force"}) then
        Destructive(CleanForce, PositionalsFrom(args, false), HasShort(args, 'd'), HasShort(args, 'x'))
      else Safe
    else if sub == "restore" then
      if HasFlag(args, {"--worktree", "-W"}) || !HasFlag(args, {"--staged", "-S"}) then
        Destructive(RestoreWorktree, PositionalsFrom(args, false), false, false)
      else Safe
    else if sub == "checkout" then
      if separated then Destructive(CheckoutOverwrite, PositionalsFrom(args, false), false, false)
      else if HasFlag(args, {"--force"}) || HasShort(args, 'f') then
        Destructive(BranchSwitchOverwrite, [], false, false)
      else Safe
    else if sub == "switch" then
      if HasFlag(args, {"--discard-changes"}) || HasFlag(args, {"--force"}) || HasShort(args, 'f') then
        Destructive(BranchSwitchOverwrite, [], false, false)
      else Safe
    else Safe
  }

  /** classifyGitCommand. For a checkout the separator is looked for in all the words, not just in those
      after the subcommand. */
  function Classify(argv: seq<string>): Verdict {
    match SubcommandFrom(argv, SkipGit(argv))
    case None => Safe
    case Some(at) => Judge(argv[at], argv[at + 1..], Separated(argv))
  }

  // ---------------------------------------------------------------- laws over all words

  /** Global options, each with its value where it takes one, and nothing else. */
  predicate GlobalOptions(p: seq<string>) {
    || p == []
    || (IsOption(p[0]) && p[0] !in GLOBAL_WITH_VALUE && GlobalOptions(p[1..]))
    || (|p| >= 2 && IsOption(p[0]) && p[0] in GLOBAL_WITH_VALUE && GlobalOptions(p[2..]))
  }

  lemma {:induction false} SkipsOptions(head: seq<string>, p: seq<string>, rest: seq<string>)
    requires GlobalOptions(p)
    ensures SubcommandFrom(head + p + rest, |head|) == SubcommandFrom(head + p + rest, |head| + |p|)
    decreases |p|
  {
    if p != [] {
      var argv := head + p + rest;
      var k := if p[0] in GLOBAL_WITH_VALUE then 2 else 1;
      SkipsOptions(head + p[..k], p[k..], rest);
      assert head + p[..k] + p[k..] + rest == argv;
      assert argv[|head|] == p[0];
    }
  }

  /** Reading is local: what comes before the position does not matter. */
  lemma {:induction false} SubcommandShifts(a: seq<string>, b: seq<string>, rest: seq<string>, i: nat)
    ensures var x, y := SubcommandFrom(a + rest, |a| + i), SubcommandFrom(b + rest, |b| + i);
            && (x.Some? <==> y.Some?)
            && (x.Some? ==> |a| + i <= x.value && |b| + i <= y.value && x.value - |a| == y.value - |b|)
    decreases |rest| - i
  {
    if i < |rest| {
      assert (a + rest)[|a| + i] == rest[i] == (b + rest)[|b| + i];
      SubcommandShifts(a, b, rest, i + 1);
      SubcommandShifts(a, b, rest, i + 2);
    }
  }

  lemma SameJudgement(a: seq<string>, b: seq<string>, rest: seq<string>)
    requires "--" in a <==> "--" in b
    requires SubcommandFrom(a + rest, SkipGit(a + rest)) == SubcommandFrom(a + rest, |a|)
    requires SubcommandFrom(b + rest, SkipGit(b + rest)) == SubcommandFrom(b + rest, |b|)
    ensures Classify(a + rest) == Classify(b + rest)
  {
    hide *;
    SubcommandShifts(a, b, rest, 0);
    var x := SubcommandFrom(a + rest, |a|);
    if x.Some? {
      JudgedAfter(a, rest, x.value - |a|);
      JudgedAfter(b, rest, x.value - |a|);
      assert Separated(a + rest) == Separated(b + rest) by { SeparatedAlike(a, b, rest); }
    } else {
      NothingToJudge(a + rest);
      NothingToJudge(b + rest);
    }
  }

  lemma NothingToJudge(argv: seq<string>)
    requires SubcommandFrom(argv, SkipGit(argv)).None?
    ensures Classify(argv) == Safe
  {
    hide SubcommandFrom, SkipGit;
  }

  lemma SeparatedAlike(a: seq<string>, b: seq<string>, rest: seq<string>)
    requires "--" in a <==> "--" in b
    ensures Separated(a + rest) == Separated(b + rest)
  {
    InConcat("--", a, rest);
    InConcat("--", b, rest);
  }

  lemma JudgedAfter(a: seq<string>, rest: seq<string>, i: nat)
    requires i < |rest| && SubcommandFrom(a + rest, SkipGit(a + rest)) == Some(|a| + i)
    ensures Classify(a + rest) == Judge(rest[i], rest[i + 1..], Separated(a + rest))
  {
    hide *;
    AfterHead(a, rest, i);
    JudgedAs(a + rest, |a| + i, rest[i], rest[i + 1..]);
  }

  lemma JudgedAs(argv: seq<string>, at: nat, sub: string, args: seq<string>)
    requires SubcommandFrom(argv, SkipGit(argv)) == Some(at) && at < |argv|
    requires argv[at] == sub && argv[at + 1..] == args
    ensures Classify(argv) == Judge(sub, args, Separated(argv))
  {
    hide *;
    JudgedAt(argv, at);
  }

  lemma JudgedAt(argv: seq<string>, at: nat)
    requires SubcommandFrom(argv, SkipGit(argv)) == Some(at)
    ensures at < |argv| && Classify(argv) == Judge(argv[at], argv[at + 1..], Separated(argv))
  {
    hide Judge, SubcommandFrom, SkipGit, Separated;
  }

  /** Options git takes before its subcommand leave the verdict alone, with their values, unless one of
      those words is the separator. */
  lemma GlobalOptionsDoNotMatter(p: seq<string>, argv: seq<string>)
    requires GlobalOptions(p) && "--" !in p
    ensures Classify(["git"] + p + argv) == Classify(["git"] + argv)
    ensures argv == [] || argv[0] != "git" ==> Classify(p + argv) == Classify(argv)
  {
    hide Judge, Classify, SubcommandFrom;
    var git := ["git"];
    InConcat("--", git, p);
    SkipsOptions(git, p, argv);
    GitFirst(git + p + argv);
    GitFirst(git + argv);
    SameJudgement(git + p, git, argv);
    if argv == [] || argv[0] != "git" {
      BareOptionsDoNotMatter(p, argv);
    }
  }

  lemma BareOptionsDoNotMatter(p: seq<string>, argv: seq<string>)
    requires GlobalOptions(p) && "--" !in p && (argv == [] || argv[0] != "git")
    ensures Classify(p + argv) == Classify(argv)
  {
    hide Judge, Classify, SubcommandFrom;
    SkipsOptions([], p, argv);
    assert [] + p + argv == p + argv && [] + argv == argv;
    assert p != [] ==> (p + argv)[0] == p[0] && p[0] != "git";
    SameJudgement(p, [], argv);
  }

  /** And exactly then: global options never change a verdict if and only if the separator is not among
      them, since a checkout of a branch becomes an overwrite when it is. */
  lemma GlobalOptionsIff(p: seq<string>)
    requires GlobalOptions(p)
    ensures (forall argv: seq<string> :: Classify(["git"] + p + argv) == Classify(["git"] + argv)) <==> "--" !in p
  {
    hide Classify;
    if "--" !in p {
      forall argv: seq<string>
        ensures Classify(["git"] + p + argv) == Classify(["git"] + argv)
      {
        GlobalOptionsDoNotMatter(p, argv);
      }
    } else {
      BranchCheckout(p);
      BranchCheckout([]);
      assert ["git"] + [] + ["checkout", "main"] == ["git"] + ["checkout", "main"];
    }
  }

  lemma BranchCheckout(p: seq<string>)
    requires GlobalOptions(p)
    ensures Classify(["git"] + p + ["checkout", "main"]) == Safe <==> "--" !in p
  {
    hide Judge, GlobalOptions, SkipGit;
    var argv := ["git"] + p + ["checkout", "main"];
    SkipsOptions(["git"], p, ["checkout", "main"]);
    assert SkipGit(argv) == 1 by { assert argv[0] == "git"; GitFirst(argv); }
    assert argv[|p| + 1] == "checkout" && argv[|p| + 2..] == ["main"];
    assert "--" in argv <==> "--" in p;
    JudgeBranchCheckout();
  }

  lemma GitFirst(argv: seq<string>)
    requires argv != [] && argv[0] == "git"
    ensures SkipGit(argv) == 1
  {
  }

  lemma JudgeBranchCheckout()
    ensures Judge("checkout", ["main"], true) != Safe
    ensures Judge("checkout", ["main"], false) == Safe
  {
    assert !HasFlag(["main"], {"--force"}) && !HasShort(["main"], 'f');
  }

  /** Writing `git` first does not matter either, unless it is there already: twice, it is taken for a
      subcommand nobody knows. */
  lemma LeadingGit(argv: seq<string>)
    ensures Classify(["git"] + argv) == Classify(argv) <==> (argv != [] && argv[0] == "git" ==> Classify(argv) == Safe)
  {
    if argv != [] && argv[0] == "git" {
      var twice := ["git"] + argv;
      assert twice[1] == "git";
      assert SubcommandFrom(twice, 1) == Some(1);
    } else {
      assert [] + argv == argv;
      SameJudgement(["git"], [], argv);
    }
  }

  ghost predicate SameWords(a: seq<string>, b: seq<string>) {
    forall w :: w in a <==> w in b
  }

  lemma FlagsBySet(a: seq<string>, b: seq<string>)
    requires forall w <- a :: w in b
    ensures forall names: set<string> :: HasFlag(a, names) ==> HasFlag(b, names)
    ensures forall letter :: HasShort(a, letter) ==> HasShort(b, letter)
  {
    forall names: set<string> | HasFlag(a, names)
      ensures HasFlag(b, names)
    {
      var w :| w in a && (w in names || exists n <- names :: StartsWith(w, n + "="));
      assert w in b;
    }
  }

  /** Whether a command is destructive, and how, does not depend on the order of its arguments, nor on how
      often one is repeated; only the paths it names do. */
  lemma ArgumentOrderDoesNotMatter(head: seq<string>, args: seq<string>, shuffled: seq<string>)
    requires SubcommandFrom(head + args, SkipGit(head + args)) == Some(|head| - 1)
    requires SameWords(args, shuffled)
    ensures var v, w := Classify(head + args), Classify(head + shuffled);
            && v.Destructive? == w.Destructive?
            && (v.Destructive? ==> v.kind == w.kind && v.directories == w.directories && v.ignored == w.ignored)
  {
    hide *;
    var at := |head| - 1;
    SubcommandKept(head, args, shuffled);
    JudgedAt(head + args, at);
    JudgedAt(head + shuffled, at);
    assert (head + args)[at] == head[at] == (head + shuffled)[at];
    assert (head + args)[|head|..] == args && (head + shuffled)[|head|..] == shuffled;
    SameSeparator(head, args, shuffled);
    JudgeByWords(head[at], args, shuffled, Separated(head + args));
  }

  lemma SameSeparator(head: seq<string>, args: seq<string>, shuffled: seq<string>)
    requires SameWords(args, shuffled)
    ensures Separated(head + args) == Separated(head + shuffled)
  {
    InConcat("--", head, args);
    InConcat("--", head, shuffled);
  }

  lemma JudgeByWords(sub: string, args: seq<string>, shuffled: seq<string>, separated: bool)
    requires SameWords(args, shuffled)
    ensures var v, w := Judge(sub, args, separated), Judge(sub, shuffled, separated);
            && v.Destructive? == w.Destructive?
            && (v.Destructive? ==> v.kind == w.kind && v.directories == w.directories && v.ignored == w.ignored)
  {
    hide HasFlag, HasShort, PositionalsFrom;
    FlagsBySet(args, shuffled);
    FlagsBySet(shuffled, args);
  }

  lemma {:induction false} ReadsOnlySoFar(head: seq<string>, a: seq<string>, b: seq<string>, i: nat)
    requires SubcommandFrom(head + a, i) == Some(|head| - 1)
    ensures SubcommandFrom(head + b, i) == Some(|head| - 1)
    decreases |head| - i
  {
    assert (head + a)[i] == (head + b)[i];
    if i < |head| - 1 {
      ReadsOnlySoFar(head, a, b, if head[i] in GLOBAL_WITH_VALUE then i + 2 else i + 1);
    }
  }

  lemma SubcommandKept(head: seq<string>, a: seq<string>, b: seq<string>)
    requires SubcommandFrom(head + a, SkipGit(head + a)) == Some(|head| - 1)
    ensures SubcommandFrom(head + b, SkipGit(head + b)) == Some(|head| - 1)
  {
    assert head != [] && (head + a)[0] == head[0] == (head + b)[0];
    ReadsOnlySoFar(head, a, b, SkipGit(head + a));
  }

  /** More arguments never make a destructive reset, clean, checkout or switch safe; a destructive restore
      they make safe exactly when they bring `--staged` and nothing asks for the working tree. */
  lemma AppendingDoesNotDisarm(head: seq<string>, args: seq<string>, more: seq<string>)
    requires SubcommandFrom(head + args, SkipGit(head + args)) == Some(|head| - 1)
    requires Classify(head + args).Destructive?
    ensures var v := Classify(head + (args + more));
            if head[|head| - 1] != "restore" then v.Destructive?
            else v == Safe <==> HasFlag(args + more, {"--staged", "-S"}) && !HasFlag(args + more, {"--worktree", "-W"})
  {
    SubcommandKept(head, args, args + more);
    assert (head + args)[|head|..] == args && (head + (args + more))[|head|..] == args + more;
    FlagsBySet(args, args + more);
    assert "--" in head + args ==> "--" in head + (args + more);
  }

  /** Short flags cluster: however the letters of one option of a clean are arranged, it is forced by an f,
      takes directories with a d and ignored files with an x. */
  lemma CleanCluster(letters: string, paths: seq<string>)
    requires letters != "" && (forall c <- letters :: IsLetter(c)) && forall p <- paths :: !IsOption(p)
    ensures Classify(["git", "clean", "-" + letters] + paths)
            == if 'f' !in letters then Safe else Destructive(CleanForce, paths, 'd' in letters, 'x' in letters)
  {
    hide *;
    var cluster := "-" + letters;
    var args := [cluster] + paths;
    var argv := ["git", "clean"] + args;
    assert argv == ["git", "clean", cluster] + paths;
    assert argv[2..] == args && argv[1] == "clean";
    FindsClean(argv);
    JudgedAt(argv, 1);
    ClusterShort(letters, paths, 'f');
    ClusterShort(letters, paths, 'd');
    ClusterShort(letters, paths, 'x');
    NoLongFlag(letters, paths);
    ClusterPaths(letters, paths);
    JudgesClean(args, Separated(argv));
  }

  lemma FindsClean(argv: seq<string>)
    requires |argv| > 1 && argv[0] == "git" && argv[1] == "clean"
    ensures SubcommandFrom(argv, SkipGit(argv)) == Some(1)
  {
  }

  lemma JudgesClean(args: seq<string>, separated: bool)
    ensures Judge("clean", args, separated)
            == if HasShort(args, 'f') || HasFlag(args, {"--force"})
               then Destructive(CleanForce, PositionalsFrom(args, false), HasShort(args, 'd'), HasShort(args, 'x')) else Safe
  {
    hide HasShort, HasFlag, PositionalsFrom;
  }

  lemma ClusterShort(letters: string, paths: seq<string>, letter: char)
    requires letters != "" && (forall c <- letters :: IsLetter(c)) && forall p <- paths :: !IsOption(p)
    ensures HasShort(["-" + letters] + paths, letter) <==> letter in letters
  {
    hide IsLetter;
    var cluster := "-" + letters;
    var args := [cluster] + paths;
    assert cluster[1..] == letters;
    assert IsCluster(cluster, letter) <==> letter in letters;
    assert args[0] == cluster;
    if HasShort(args, letter) {
      var a :| a in args && IsCluster(a, letter);
      assert a == cluster || a in paths;
    }
  }

  lemma NoLongFlag(letters: string, paths: seq<string>)
    requires letters != "" && (forall c <- letters :: IsLetter(c)) && forall p <- paths :: !IsOption(p)
    ensures !HasFlag(["-" + letters] + paths, {"--force"})
  {
    hide IsLetter;
    var args := ["-" + letters] + paths;
    assert !IsLetter('-') by { DashIsNoLetter(); }
    forall a <- args
      ensures |a| < 2 || a[0] != '-' || a[1] != '-'
    {
      if a == "-" + letters { assert a[1] == letters[0] && letters[0] in letters; } else { assert a in paths; }
    }
    assert "--force"[0] == '-' && "--force"[1] == '-';
    assert ("--force" + "=")[0] == '-' && ("--force" + "=")[1] == '-';
  }

  lemma DashIsNoLetter()
    ensures !IsLetter('-')
  {
  }

  lemma ClusterPaths(letters: string, paths: seq<string>)
    requires letters != "" && (forall c <- letters :: IsLetter(c)) && forall p <- paths :: !IsOption(p)
    ensures PositionalsFrom(["-" + letters] + paths, false) == paths
  {
    hide IsLetter;
    var cluster := "-" + letters;
    assert cluster != "--" by { DashIsNoLetter(); assert cluster[1] == letters[0] && letters[0] in letters; }
    assert ([cluster] + paths)[1..] == paths;
    PlainPositionals(paths);
  }

  lemma {:induction false} PlainPositionals(paths: seq<string>)
    requires forall p <- paths :: !IsOption(p)
    ensures PositionalsFrom(paths, false) == paths
  {
    if paths != [] {
      assert paths[0] in paths;
      PlainPositionals(paths[1..]);
    }
  }

  function Without(s: seq<string>, word: string): (r: seq<string>)
    ensures word !in r
  {
    if s == [] then [] else (if s[0] == word then [] else [s[0]]) + Without(s[1..], word)
  }

  /** The separator's meaning: options before it are no paths, and after it everything is one, another
      separator excepted. */
  lemma {:induction false} SeparatorSplitsPaths(a: seq<string>, b: seq<string>)
    requires "--" !in a
    ensures PositionalsFrom(a + ["--"] + b, false) == PositionalsFrom(a, false) + Without(b, "--")
    decreases |a|
  {
    if a == [] {
      assert (a + ["--"] + b)[1..] == b;
      AfterSeparator(b);
    } else {
      assert (a + ["--"] + b)[1..] == a[1..] + ["--"] + b;
      SeparatorSplitsPaths(a[1..], b);
    }
  }

  lemma {:induction false} AfterSeparator(b: seq<string>)
    ensures PositionalsFrom(b, true) == Without(b, "--")
  {
    if b != [] { AfterSeparator(b[1..]); }
  }

  // ---------------------------------------------------------------- what is endangered

  function DropSlashes(p: string): string {
    if p != "" && p[|p| - 1] == '/' then DropSlashes(p[..|p| - 1]) else p
  }

  /** One leading "./" and all trailing slashes go. */
  function Normalise(p: string): string {
    DropSlashes(if StartsWith(p, "./") then p[2..] else p)
  }

  predicate Reaches(named: string, p: string) {
    var n, t := Normalise(named), Normalise(p);
    n == "." || t == n || StartsWith(t, n + "/")
  }

  predicate AnyReaches(paths: seq<string>, p: string) {
    exists named <- paths :: Reaches(named, p)
  }

  function Filter(paths: seq<string>, protected: seq<string>): (hit: seq<string>)
    ensures forall p :: p in hit <==> p in protected && AnyReaches(paths, p)
  {
    if protected == [] then []
    else (if AnyReaches(paths, protected[0]) then [protected[0]] else []) + Filter(paths, protected[1..])
  }

  /** endangered: of a command that names paths, the protected ones it reaches, in their order. */
  function Endangered(v: Verdict, protected: seq<string>): seq<string> {
    if v.Safe? then []
    else if v.paths == [] then protected
    else Filter(v.paths, protected)
  }

  lemma ConsConcat(c: char, a: seq<string>, b: seq<string>)
    requires |a| > 0
    ensures [""] + (a + b) == [""] + a + b
    ensures [[c] + (a + b)[0]] + (a + b)[1..] == [[c] + a[0]] + a[1..] + b
  {
  }

  lemma {:induction false} SplitConcat(a: string, b: string)
    ensures Split(a + "/" + b, '/') == Split(a, '/') + Split(b, '/')
  {
    if a == "" {
      assert a + "/" + b == "/" + b;
    } else {
      SplitConcat(a[1..], b);
      assert (a + "/" + b)[1..] == a[1..] + "/" + b;
      ConsConcat(a[0], Split(a[1..], '/'), Split(b, '/'));
    }
  }

  lemma {:induction false} JoinConcat(a: seq<string>, b: seq<string>)
    requires |a| > 0 && |b| > 0
    ensures Join(a + b, '/') == Join(a, '/') + "/" + Join(b, '/')
    decreases |a|
  {
    if |a| == 1 {
      assert (a + b)[1..] == b;
    } else {
      JoinConcat(a[1..], b);
      assert (a + b)[1..] == a[1..] + b;
    }
  }

  /** The prefix test with its slash is the component-wise ancestor relation. */
  lemma PrefixIsAncestor(n: string, t: string)
    ensures (t == n || StartsWith(t, n + "/")) <==> Split(n, '/') <= Split(t, '/')
  {
    hide Split, Join;
    var a, c := Split(n, '/'), Split(t, '/');
    if StartsWith(t, n + "/") {
      var rest := t[|n| + 1..];
      assert t == n + "/" + rest;
      SplitConcat(n, rest);
    }
    if a <= c {
      JoinSplit(n, '/');
      JoinSplit(t, '/');
      var b := c[|a|..];
      assert c == a + b;
      if b != [] {
        JoinConcat(a, b);
        assert t == n + "/" + Join(b, '/');
      } else {
        assert c == a;
      }
    }
  }

  /** A named path is an ancestor of another: the whole tree, or a component-wise prefix. */
  predicate Ancestor(m: string, n: string) {
    Normalise(m) == "." || Split(Normalise(m), '/') <= Split(Normalise(n), '/')
  }

  /** Exactly the protected paths that some named path is an ancestor of, in their order. */
  lemma EndangeredExact(v: Verdict, protected: seq<string>, p: string)
    requires v.Destructive? && v.paths != []
    ensures p in Endangered(v, protected) <==> p in protected && exists named <- v.paths :: Ancestor(named, p)
  {
    hide Normalise, Split;
    forall named <- v.paths
      ensures Reaches(named, p) <==> Ancestor(named, p)
    {
      PrefixIsAncestor(Normalise(named), Normalise(p));
    }
  }

  /** Lists of protected paths can be judged piece by piece. */
  lemma {:induction false} EndangeredDistributes(v: Verdict, a: seq<string>, b: seq<string>)
    ensures Endangered(v, a + b) == Endangered(v, a) + Endangered(v, b)
    decreases |a|
  {
    hide AnyReaches;
    if v.Destructive? && v.paths != [] {
      if a == [] {
        assert a + b == b;
      } else {
        EndangeredDistributes(v, a[1..], b);
        assert (a + b)[1..] == a[1..] + b;
      }
    }
  }

  /** Naming an ancestor instead endangers at least as much. */
  lemma AncestorsReachMore(v: Verdict, wider: Verdict, protected: seq<string>, p: string)
    requires v.Destructive? && wider.Destructive? && v.paths != []
    requires forall n <- v.paths :: exists m <- wider.paths :: Ancestor(m, n)
    requires p in Endangered(v, protected)
    ensures p in Endangered(wider, protected)
  {
    hide Normalise, Split;
    if wider.paths != [] {
      EndangeredExact(v, protected, p);
      EndangeredExact(wider, protected, p);
      var n :| n in v.paths && Ancestor(n, p);
      var m :| m in wider.paths && Ancestor(m, n);
      if Normalise(n) == "." && Normalise(m) != "." {
        DotHasNoAncestor(m, n);
      }
      assert Ancestor(m, p);
    }
  }

  lemma DotHasNoAncestor(m: string, n: string)
    requires Normalise(n) == "." && Ancestor(m, n)
    ensures Normalise(m) == "."
  {
    PrefixIsAncestor(Normalise(m), ".");
  }

  /** Exactly the names that normalise to `.` stand for the whole tree. */
  lemma WholeTreeIff(named: string)
    ensures (forall p :: Reaches(named, p)) <==> Normalise(named) == "."
  {
    hide Normalise;
    if Normalise(named) != "." {
      PlainNames();
      assert !(Reaches(named, "a") && Reaches(named, "b")) by { OnlyOneLetter(Normalise(named)); }
    }
  }

  lemma PlainNames()
    ensures Normalise("a") == "a" && Normalise("b") == "b"
  {
  }

  lemma OnlyOneLetter(n: string)
    ensures !(("a" == n || StartsWith("a", n + "/")) && ("b" == n || StartsWith("b", n + "/")))
  {
    assert |n + "/"| == |n| + 1;
    assert n == "" ==> (n + "/")[0] == '/';
  }

  /** Where a spelling of the whole tree is missed: `./` is normalised to nothing, which is an ancestor of
      absolute paths only, while `.` reaches everything. */
  lemma DotSlashIsNotDot(p: string)
    ensures Reaches(".", p)
    ensures Reaches("./", p) <==> Normalise(p) == "" || Normalise(p)[0] == '/'
  {
    var t := Normalise(p);
    assert "./"[2..] == "" && Normalise("./") == "";
    assert Normalise(".") == ".";
    assert "" + "/" == "/";
  }
}
