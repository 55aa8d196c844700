/** The verdict on every git command, written out subcommand by subcommand, and which paths it endangers. */
module GitVerdicts {
  import opened Wrappers
  import opened Text
  import opened GitCommand

  // ---------------------------------------------------------------- which word is the subcommand

  /** The subcommand is the first word after `git` and the global options with their values. */
  lemma {:induction false} SubcommandIff(argv: seq<string>, i: nat, at: nat)
    requires i <= |argv|
    ensures SubcommandFrom(argv, i) == Some(at)
            <==> i <= at < |argv| && !IsOption(argv[at]) && GlobalOptions(argv[i..at])
    decreases |argv| - i
  {
    hide IsOption;
    if i < |argv| && i < at < |argv| {
      assert argv[i..at][0] == argv[i] && argv[i..at][1..] == argv[i + 1..at];
      if i + 2 <= at { assert argv[i..at][2..] == argv[i + 2..at]; }
      if argv[i] in GLOBAL_WITH_VALUE {
        if i + 2 <= |argv| { SubcommandIff(argv, i + 2, at); }
      } else {
        SubcommandIff(argv, i + 1, at);
      }
    }
    if i == at < |argv| { assert argv[i..at] == []; }
    PastTheEnd(argv, i);
  }

  lemma PastTheEnd(argv: seq<string>, i: nat)
    ensures forall at: nat | SubcommandFrom(argv, i) == Some(at) :: i <= at < |argv| && !IsOption(argv[at])
    ensures i < |argv| && IsOption(argv[i]) && argv[i] in GLOBAL_WITH_VALUE ==> SubcommandFrom(argv, i) == SubcommandFrom(argv, i + 2)
    ensures i < |argv| && IsOption(argv[i]) && argv[i] !in GLOBAL_WITH_VALUE ==> SubcommandFrom(argv, i) == SubcommandFrom(argv, i + 1)
    ensures i < |argv| && !IsOption(argv[i]) ==> SubcommandFrom(argv, i) == Some(i)
  {
  }

  // ---------------------------------------------------------------- the verdict

  /** A long option is given, by itself or with a value after an equals sign. */
  predicate Says(args: seq<string>, name: string) {
    exists a <- args :: a == name || name + "=" <= a
  }

  ghost predicate SaysLetter(args: seq<string>, letter: char) {
    exists letters: string :: "-" + letters in args && letter in letters && forall c <- letters :: 'a' <= c <= 'z' || 'A' <= c <= 'Z'
  }

  /** What a command destroys, from its subcommand, the words after it, and whether any word is `--`. */
  ghost predicate Destroys(sub: string, args: seq<string>, separated: bool) {
    || (sub == "reset" && Says(args, "--hard"))
    || (sub == "clean" && (SaysLetter(args, 'f') || Says(args, "--force")))
    || (sub == "restore" && (Says(args, "--worktree") || Says(args, "-W") || !(Says(args, "--staged") || Says(args, "-S"))))
    || (sub == "checkout" && (separated || SaysLetter(args, 'f') || Says(args, "--force")))
    || (sub == "switch" && (SaysLetter(args, 'f') || Says(args, "--force") || Says(args, "--discard-changes")))
  }

  function KindOf(sub: string, separated: bool): Kind {
    if sub == "reset" then ResetHard
    else if sub == "clean" then CleanForce
    else if sub == "restore" then RestoreWorktree
    else if sub == "checkout" && separated then CheckoutOverwrite
    else BranchSwitchOverwrite
  }

  /** The kinds of destruction that are limited to the paths named. */
  predicate NamesPaths(kind: Kind) {
    kind.CleanForce? || kind.RestoreWorktree? || kind.CheckoutOverwrite?
  }

  lemma FlagMeans(args: seq<string>, name: string)
    ensures HasFlag(args, {name}) <==> Says(args, name)
  {
    forall a <- args
      ensures StartsWith(a, name + "=") <==> name + "=" <= a
    {
      StartsIsPrefix(a, name + "=");
    }
  }

  lemma FlagsMean(args: seq<string>, name: string, other: string)
    ensures HasFlag(args, {name, other}) <==> Says(args, name) || Says(args, other)
  {
    forall a <- args
      ensures StartsWith(a, name + "=") <==> name + "=" <= a
      ensures StartsWith(a, other + "=") <==> other + "=" <= a
    {
      StartsIsPrefix(a, name + "=");
      StartsIsPrefix(a, other + "=");
    }
  }

  lemma StartsIsPrefix(s: string, prefix: string)
    ensures StartsWith(s, prefix) <==> prefix <= s
  {
  }

  lemma ShortMeans(args: seq<string>, letter: char)
    ensures HasShort(args, letter) <==> SaysLetter(args, letter)
  {
    if HasShort(args, letter) {
      var a :| a in args && IsCluster(a, letter);
      assert a == "-" + a[1..];
    }
    if SaysLetter(args, letter) {
      var letters :| "-" + letters in args && letter in letters && forall c <- letters :: 'a' <= c <= 'z' || 'A' <= c <= 'Z';
      var a := "-" + letters;
      assert a[1..] == letters;
      forall i | 1 <= i < |a|
        ensures IsLetter(a[i])
      {
        assert a[i] == letters[i - 1] && letters[i - 1] in letters;
      }
      assert IsCluster("-" + letters, letter);
    }
  }

  lemma JudgedBy(sub: string, args: seq<string>, separated: bool)
    ensures var v := Judge(sub, args, separated);
            && (v.Destructive? <==> Destroys(sub, args, separated))
            && (v.Destructive? ==>
                  && v.kind == KindOf(sub, separated)
                  && v.paths == (if NamesPaths(v.kind) then PositionalsFrom(args, false) else [])
                  && (v.directories <==> sub == "clean" && SaysLetter(args, 'd'))
                  && (v.ignored <==> sub == "clean" && SaysLetter(args, 'x')))
  {
    hide HasFlag, HasShort, Says, SaysLetter, PositionalsFrom;
    FlagMeans(args, "--hard");
    FlagMeans(args, "--force");
    FlagMeans(args, "--discard-changes");
    FlagsMean(args, "--worktree", "-W");
    FlagsMean(args, "--staged", "-S");
    ShortMeans(args, 'f');
    ShortMeans(args, 'd');
    ShortMeans(args, 'x');
  }

  /** The verdict on any command, given its global options, its subcommand and the words after it. */
  lemma VerdictOf(git: seq<string>, options: seq<string>, sub: string, args: seq<string>)
    requires git == ["git"] || (git == [] && (options + [sub])[0] != "git")
    requires GlobalOptions(options) && !IsOption(sub)
    ensures var v, separated := Classify(git + options + [sub] + args), "--" in options || "--" in args;
            && (v.Destructive? <==> Destroys(sub, args, separated))
            && (v.Destructive? ==>
                  && v.kind == KindOf(sub, separated)
                  && v.paths == (if NamesPaths(v.kind) then PositionalsFrom(args, false) else [])
                  && (v.directories <==> sub == "clean" && SaysLetter(args, 'd'))
                  && (v.ignored <==> sub == "clean" && SaysLetter(args, 'x')))
  {
    hide Judge, Classify, Destroys, KindOf, NamesPaths, SubcommandFrom, PositionalsFrom, SaysLetter, GlobalOptions;
    var argv, at := git + options + [sub] + args, |git| + |options|;
    assert argv[0] == (git + options + [sub])[0];
    assert SkipGit(argv) == |git|;
    assert argv[|git|..at] == options && argv[at] == sub && argv[at + 1..] == args;
    SubcommandIff(argv, |git|, at);
    JudgedAt(argv, at);
    JudgedBy(sub, args, Separated(argv));
    Dashes(git, options, sub, args);
  }

  lemma Dashes(git: seq<string>, options: seq<string>, sub: string, args: seq<string>)
    requires "--" !in git && !IsOption(sub)
    ensures Separated(git + options + [sub] + args) <==> "--" in options || "--" in args
  {
  }

  /** A command that is only global options, with or without `git`, is safe. */
  lemma NoSubcommandIsSafe(argv: seq<string>)
    requires forall at: nat | SkipGit(argv) <= at < |argv| && GlobalOptions(argv[SkipGit(argv)..at]) :: IsOption(argv[at])
    ensures Classify(argv) == Safe
  {
    hide Judge, GlobalOptions, IsOption;
    if SubcommandFrom(argv, SkipGit(argv)).Some? {
      SubcommandIff(argv, SkipGit(argv), SubcommandFrom(argv, SkipGit(argv)).value);
    }
  }

  /** For one: a hard reset is destructive, whatever else is said, and endangers every protected path. */
  lemma HardResetEndangersAll(args: seq<string>, protected: seq<string>)
    requires "--hard" in args
    ensures Classify(["git", "reset"] + args) == Destructive(ResetHard, [], false, false)
    ensures Endangered(Classify(["git", "reset"] + args), protected) == protected
  {
    hide Classify, Judge, GlobalOptions, SaysLetter;
    assert GlobalOptions([]) by { NoOptions(); }
    VerdictOf(["git"], [], "reset", args);
    assert ["git"] + [] + ["reset"] + args == ["git", "reset"] + args;
  }

  lemma NoOptions()
    ensures GlobalOptions([])
  {
  }

  // ---------------------------------------------------------------- which words are paths

  /** Before the separator the words are taken one by one, and after it too. */
  lemma {:induction false} PathsPieceByPiece(a: seq<string>, b: seq<string>, after: bool)
    requires after || "--" !in a
    ensures PositionalsFrom(a + b, after) == PositionalsFrom(a, after) + PositionalsFrom(b, after)
    decreases |a|
  {
    if a == [] {
      assert a + b == b;
    } else {
      assert (a + b)[1..] == a[1..] + b;
      PathsPieceByPiece(a[1..], b, after);
    }
  }

  /** An option is no path before the separator and a path after it; the separator itself never is. */
  lemma OneWordIsPath(word: string, rest: seq<string>, after: bool)
    ensures PositionalsFrom([], after) == []
    ensures word != "--" ==> PositionalsFrom([word], after) == if IsOption(word) && !after then [] else [word]
    ensures PositionalsFrom(["--"] + rest, after) == PositionalsFrom(rest, true)
  {
    assert (["--"] + rest)[1..] == rest;
    assert [word][1..] == [];
  }

  // ---------------------------------------------------------------- what is endangered

  /** A safe command endangers nothing, a destructive one without paths everything, and any other each
      protected path that a named one is an ancestor of. */
  lemma EndangeredOne(v: Verdict, p: string)
    ensures Endangered(v, [p])
            == if v.Destructive? && (v.paths == [] || exists named <- v.paths :: Ancestor(named, p)) then [p] else []
  {
    hide Normalise, Split, Ancestor, Reaches;
    if v.Destructive? {
      forall named <- v.paths
        ensures Reaches(named, p) <==> Ancestor(named, p)
      {
        ReachesIsAncestor(named, p);
      }
      FilterOne(v.paths, p);
    }
  }

  lemma FilterOne(paths: seq<string>, p: string)
    ensures Filter(paths, [p]) == if AnyReaches(paths, p) then [p] else []
  {
    hide AnyReaches;
    assert [p][1..] == [];
    assert Filter(paths, []) == [];
  }

  lemma ReachesIsAncestor(named: string, p: string)
    ensures Reaches(named, p) <==> Ancestor(named, p)
  {
    hide Normalise, Split;
    PrefixIsAncestor(Normalise(named), Normalise(p));
  }

  lemma NothingProtected(v: Verdict)
    ensures Endangered(v, []) == []
  {
  }

  /** What a name is taken for: without one leading `./` and without the slashes at its end. */
  lemma NormalisedTo(p: string, slashes: string)
    requires (p == "" || p[|p| - 1] != '/') && forall c <- slashes :: c == '/'
    ensures Normalise("./" + p + slashes) == p
    ensures !("./" <= p + slashes) ==> Normalise(p + slashes) == p
  {
    hide DropSlashes;
    var dotted := "./" + p + slashes;
    assert dotted[2..] == p + slashes && dotted[..2] == "./";
    StartsIsPrefix(p + slashes, "./");
    SlashesDropped(p, slashes);
  }

  lemma {:induction false} SlashesDropped(p: string, slashes: string)
    requires (p == "" || p[|p| - 1] != '/') && forall c <- slashes :: c == '/'
    ensures DropSlashes(p + slashes) == p
    decreases |slashes|
  {
    if slashes == "" {
      assert p + slashes == p;
    } else {
      var n := |slashes| - 1;
      assert slashes[n] in slashes && forall c <- slashes[..n] :: c in slashes;
      assert (p + slashes)[..|p + slashes| - 1] == p + slashes[..n];
      SlashesDropped(p, slashes[..n]);
    }
  }
}
