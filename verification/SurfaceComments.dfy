/** The comment stripper of scripts/lint-production-surface.ts: block comments are blanked, line
    comments are cut, and nothing the erasing leaves behind is a comment again. */
module SurfaceComments {
  import opened Wrappers
  import opened Text

  // ---------------------------------------------------------------- block comments

  /** The first "*" + "/" at or after a position. */
  function FindClose(s: string, from: nat): (e: Option<nat>)
    ensures e.Some? ==> from <= e.value && Closes(s, e.value)
    ensures e.None? ==> forall j: nat | from <= j :: !Closes(s, j)
    ensures e.Some? ==> forall j: nat | from <= j < e.value :: !Closes(s, j)
    decreases |s| - from
  {
    if from + 2 > |s| then None
    else if Closes(s, from) then Some(from)
    else FindClose(s, from + 1)
  }

  predicate Opens(s: string, i: nat) {
    i + 1 < |s| && s[i] == '/' && s[i + 1] == '*'
  }

  predicate Closes(s: string, j: nat) {
    j + 1 < |s| && s[j] == '*' && s[j + 1] == '/'
  }

  /** Every character but a line feed becomes a space. */
  function Blank(s: string): (b: string)
    ensures |b| == |s|
  {
    seq(|s|, i requires 0 <= i < |s| => if s[i] == '\n' then '\n' else ' ')
  }

  /** How much of the text the replacement handles at once: a block comment up to its first close, or
      one character. */
  function BlockAt(s: string): (n: nat)
    requires s != ""
    ensures 1 <= n <= |s|
  {
    var close := if Opens(s, 0) then FindClose(s, 2) else None;
    if close.Some? then close.value + 2 else 1
  }

  predicate AtBlock(s: string) {
    Opens(s, 0) && FindClose(s, 2).Some?
  }

  function Erased(s: string): (t: string)
    requires s != ""
    ensures |t| == BlockAt(s)
  {
    if AtBlock(s) then Blank(s[..BlockAt(s)]) else [s[0]]
  }

  /** The global replacement of block comments, leftmost first. */
  function BlankBlocks(s: string): (t: string)
    ensures |t| == |s|
    decreases |s|
  {
    if s == "" then "" else Erased(s) + BlankBlocks(s[BlockAt(s)..])
  }

  /** At every column the raw character or a space, and line feeds in the same places. */
  predicate Masks(raw: string, t: string) {
    |t| <= |raw| && forall k | 0 <= k < |t| :: t[k] == raw[k] || (t[k] == ' ' && raw[k] != '\n')
  }

  /** No block comment that closes. */
  ghost predicate NoBlock(s: string) {
    forall i: nat, j: nat | i + 2 <= j :: !(Opens(s, i) && Closes(s, j))
  }

  lemma MasksConcat(a: string, ta: string, b: string, tb: string)
    requires Masks(a, ta) && |a| == |ta| && Masks(b, tb)
    ensures Masks(a + b, ta + tb)
  {
  }

  lemma {:induction false} BlankBlocksMasks(s: string)
    ensures Masks(s, BlankBlocks(s))
    decreases |s|
  {
    hide FindClose, BlockAt;
    if s != "" {
      var n := BlockAt(s);
      BlankBlocksMasks(s[n..]);
      assert Masks(s[..n], Erased(s)) by {
        if !AtBlock(s) { BlockIsOne(s); }
      }
      MasksConcat(s[..n], Erased(s), s[n..], BlankBlocks(s[n..]));
      assert s == s[..n] + s[n..];
    }
  }

  lemma BlockIsOne(s: string)
    requires s != "" && !AtBlock(s)
    ensures BlockAt(s) == 1
  {
  }

  lemma MarksAfter(a: string, b: string, i: nat)
    requires |a| <= i
    ensures Opens(a + b, i) == Opens(b, i - |a|)
    ensures Closes(a + b, i) == Closes(b, i - |a|)
  {
  }

  lemma MarksBefore(a: string, b: string, i: nat)
    ensures Opens(a, i) ==> Opens(a + b, i)
    ensures Closes(a, i) ==> Closes(a + b, i)
  {
  }

  /** Blanking leaves no block comment behind: erased text never joins what surrounds it. */
  lemma {:induction false} BlankedHasNoBlock(s: string)
    ensures NoBlock(BlankBlocks(s))
    decreases |s|
  {
    hide FindClose, BlockAt;
    if s != "" {
      var n := BlockAt(s);
      var head, rest := Erased(s), BlankBlocks(s[n..]);
      BlankedHasNoBlock(s[n..]);
      BlankBlocksMasks(s);
      forall i: nat, j: nat | i + 2 <= j
        ensures !(Opens(head + rest, i) && Closes(head + rest, j))
      {
        if i >= n {
          MarksAfter(head, rest, i);
          MarksAfter(head, rest, j);
        } else {
          HeadOpensNothing(s, rest, i, j);
        }
      }
    }
  }

  lemma HeadOpensNothing(s: string, rest: string, i: nat, j: nat)
    requires s != "" && i < BlockAt(s) && i + 2 <= j && Masks(s, Erased(s) + rest)
    ensures !(Opens(Erased(s) + rest, i) && Closes(Erased(s) + rest, j))
  {
    hide FindClose;
    var t := Erased(s) + rest;
    if AtBlock(s) {
      assert t[i] == Blank(s[..BlockAt(s)])[i];
    } else {
      assert Opens(t, 0) ==> Opens(s, 0);
      assert Closes(t, j) ==> Closes(s, j);
      NoCloseAfter(s, j);
    }
  }

  lemma NoCloseAfter(s: string, j: nat)
    requires 2 <= j && !AtBlock(s)
    ensures !(Opens(s, 0) && Closes(s, j))
  {
  }

  lemma {:induction false} BlankBlocksFixed(s: string)
    requires NoBlock(s)
    ensures BlankBlocks(s) == s
    decreases |s|
  {
    hide FindClose;
    if s != "" {
      assert !AtBlock(s);
      forall i: nat, j: nat | i + 2 <= j
        ensures !(Opens(s[1..], i) && Closes(s[1..], j))
      {
        assert !(Opens(s, i + 1) && Closes(s, j + 1));
        MarksAfter(s[..1], s[1..], i + 1);
        MarksAfter(s[..1], s[1..], j + 1);
        assert s == s[..1] + s[1..];
      }
      BlankBlocksFixed(s[1..]);
    }
  }

  /** With the two lemmas above, what blanking means: text before the first comment is kept, the
      comment is blanked up to its first close, and the rest is treated the same way. */
  lemma {:induction false} BlanksFirstBlock(before: string, body: string, rest: string)
    requires forall i: nat :: !Opens(before, i)
    requires forall j: nat :: !Closes(body, j)
    ensures BlankBlocks(before + ("/*" + body + "*/" + rest))
            == before + (Blank("/*" + body + "*/") + BlankBlocks(rest))
    decreases |before|
  {
    hide *;
    var c := "/*" + body + "*/";
    var s := before + (c + rest);
    if before == "" {
      assert s == c + rest;
      BlockFound(body, rest);
      BlankWhole(c, rest);
    } else {
      NoBlockFound(before, c + rest);
      BlankOne(s);
      var after := before[1..];
      assert s[1..] == after + (c + rest) && s[0] == before[0];
      forall i: nat
        ensures !Opens(after, i)
      {
        assert !Opens(before, i + 1);
        MarksAfter(before[..1], after, i + 1);
        assert before == before[..1] + after;
      }
      BlanksFirstBlock(after, body, rest);
      assert before == [before[0]] + after;
    }
  }

  lemma BlankWhole(c: string, rest: string)
    requires c + rest != "" && AtBlock(c + rest) && BlockAt(c + rest) == |c|
    ensures BlankBlocks(c + rest) == Blank(c) + BlankBlocks(rest)
  {
    hide FindClose, BlockAt, Blank, AtBlock;
    assert (c + rest)[..|c|] == c && (c + rest)[|c|..] == rest;
  }

  lemma BlankOne(s: string)
    requires s != "" && !AtBlock(s) && BlockAt(s) == 1
    ensures BlankBlocks(s) == [s[0]] + BlankBlocks(s[1..])
  {
    hide FindClose, BlockAt, Blank, AtBlock;
  }

  lemma BlockFound(body: string, rest: string)
    requires forall j: nat :: !Closes(body, j)
    ensures var s := "/*" + body + "*/" + rest; AtBlock(s) && BlockAt(s) == |body| + 4
  {
    var s := "/*" + body + "*/" + rest;
    assert Closes(s, |body| + 2);
    forall j: nat | 2 <= j < |body| + 2
      ensures !Closes(s, j)
    {
      assert !Closes(body, j - 2);
    }
  }

  lemma NoBlockFound(before: string, tail: string)
    requires before != "" && !Opens(before, 0) && |tail| > 0 && tail[0] == '/'
    ensures !AtBlock(before + tail) && BlockAt(before + tail) == 1
  {
  }

  // ---------------------------------------------------------------- line comments

  /** The characters that `.` does not match. */
  predicate IsTerminator(c: char) {
    c in {'\n', '\r', '\U{2028}', '\U{2029}'}
  }

  /** `//.*$` matches at a position: two slashes, then no line terminator up to the end. */
  predicate SlashesToEnd(line: string, k: nat) {
    && k + 1 < |line| && line[k] == '/' && line[k + 1] == '/'
    && forall i | k + 2 <= i < |line| :: !IsTerminator(line[i])
  }

  /** `(^|[^:])//.*$` matches at a position. */
  predicate CommentAt(line: string, i: nat) {
    || (i == 0 && SlashesToEnd(line, 0))
    || (i < |line| && line[i] != ':' && SlashesToEnd(line, i + 1))
  }

  /** Replace the leftmost match by its first group: nothing at the start, else the character before. */
  function CutFrom(line: string, i: nat): (cut: string)
    decreases |line| - i
  {
    if i >= |line| then line
    else if i == 0 && SlashesToEnd(line, 0) then ""
    else if CommentAt(line, i) then line[..i + 1]
    else CutFrom(line, i + 1)
  }

  function CutLine(line: string): string {
    CutFrom(line, 0)
  }

  ghost predicate NoLineComment(line: string) {
    forall i: nat :: !CommentAt(line, i)
  }

  /** Cutting removes the comment and everything after it, and the rest has no line comment. */
  lemma {:induction false} CutFromMeans(line: string, i: nat)
    requires forall k: nat | k < i :: !CommentAt(line, k)
    ensures CutFrom(line, i) <= line
    ensures NoLineComment(CutFrom(line, i))
    ensures NoLineComment(line) <==> CutFrom(line, i) == line
    decreases |line| - i
  {
    if i >= |line| {
    } else if i == 0 && SlashesToEnd(line, 0) {
      assert CommentAt(line, 0);
    } else if CommentAt(line, i) {
      var cut := line[..i + 1];
      forall k: nat
        ensures !CommentAt(cut, k)
      {
        if k < i {
          assert !CommentAt(line, 0) && !CommentAt(line, k);
          CutKeepsTerminator(line, i, k);
        }
      }
    } else {
      CutFromMeans(line, i + 1);
    }
  }

  /** What stops an earlier match in the whole line, a terminator, is still there after the cut. */
  lemma CutKeepsTerminator(line: string, i: nat, k: nat)
    requires k < i && CommentAt(line, i) && !SlashesToEnd(line, 0) && !CommentAt(line, k)
    ensures !CommentAt(line[..i + 1], k)
  {
    assert SlashesToEnd(line, i + 1);
    SlashesInCut(line, i, 0);
    SlashesInCut(line, i, k + 1);
  }

  lemma SlashesInCut(line: string, i: nat, k: nat)
    requires SlashesToEnd(line, i + 1) && i < |line|
    ensures SlashesToEnd(line[..i + 1], k) ==> SlashesToEnd(line, k)
  {
    if SlashesToEnd(line[..i + 1], k) {
      assert forall j | k + 2 <= j < i + 1 :: line[..i + 1][j] == line[j];
      forall j | k + 2 <= j < |line|
        ensures !IsTerminator(line[j])
      {
        if j <= i {
          assert !IsTerminator(line[..i + 1][j]);
        } else if j < i + 3 {
          assert line[j] == '/';
        }
      }
    }
  }

  /** A line comment starts here: two slashes, no colon before them, and no terminator after them. */
  predicate StartsComment(line: string, k: nat) {
    SlashesToEnd(line, k) && (k == 0 || line[k - 1] != ':')
  }

  /** The pattern's match at a position is a comment that starts at the very start or right after it. */
  lemma MatchStartsComment(line: string, i: nat)
    requires i < |line|
    ensures CommentAt(line, i) <==> (i == 0 && StartsComment(line, 0)) || StartsComment(line, i + 1)
  {
    hide SlashesToEnd;
  }

  lemma {:induction false} CutFromFirst(line: string, i: nat, k: nat)
    requires StartsComment(line, k) && forall j: nat | j < k :: !StartsComment(line, j)
    requires i == 0 || i < k
    ensures CutFrom(line, i) == line[..k]
    decreases k - i
  {
    hide SlashesToEnd, CommentAt;
    InsideLine(line);
    assert i == 0 ==> (SlashesToEnd(line, 0) <==> StartsComment(line, 0));
    MatchStartsComment(line, i);
    if i + 1 < k { CutFromFirst(line, i + 1, k); }
  }

  lemma {:induction false} CutFromNone(line: string, i: nat)
    requires forall k: nat :: !StartsComment(line, k)
    ensures CutFrom(line, i) == line
    decreases |line| - i
  {
    hide SlashesToEnd, CommentAt;
    assert SlashesToEnd(line, 0) <==> StartsComment(line, 0);
    if i < |line| {
      MatchStartsComment(line, i);
      CutFromNone(line, i + 1);
    }
  }

  lemma InsideLine(line: string)
    ensures forall k: nat | SlashesToEnd(line, k) :: k + 1 < |line|
  {
  }

  /** Cutting a line cuts its first comment and nothing else. */
  lemma CutsFirstComment(line: string, k: nat)
    requires StartsComment(line, k) && forall j: nat | j < k :: !StartsComment(line, j)
    ensures CutLine(line) == line[..k] && CutLine(line) != line
  {
    CutFromFirst(line, 0, k);
    InsideLine(line);
  }

  lemma CommentParts(code: string, comment: string)
    ensures var line := code + "//" + comment;
            SlashesToEnd(line, |code|) <==> forall c <- comment :: !IsTerminator(c)
  {
    hide IsTerminator;
    var line := code + "//" + comment;
    assert line[|code| + 2..] == comment;
    assert forall i | |code| + 2 <= i < |line| :: line[i] == comment[i - |code| - 2];
    if SlashesToEnd(line, |code|) {
      forall c <- comment
        ensures !IsTerminator(c)
      {
        var k :| 0 <= k < |comment| && comment[k] == c;
        assert line[|code| + 2 + k] == c;
      }
    }
  }

  /** Text up to the first two slashes of a line. */
  predicate BeforeSlashes(code: string) {
    (forall i | 0 <= i < |code| - 1 :: !(code[i] == '/' && code[i + 1] == '/')) && (code == "" || code[|code| - 1] != '/')
  }

  /** Whatever code stands before the first two slashes of a line, what they begin is cut as a comment if and
      only if no colon comes directly before them and no line terminator after them. A line feed cannot come
      there; a carriage return, as a file with CR LF line ends leaves on every line, or one of the Unicode
      separators keeps the whole comment, and so does a colon. */
  lemma CutsCommentIff(code: string, comment: string)
    requires BeforeSlashes(code)
    ensures CutLine(code + "//" + comment) == code
      <==> (code == "" || code[|code| - 1] != ':') && forall c <- comment :: !IsTerminator(c)
  {
    hide IsTerminator, CutFrom;
    var line := code + "//" + comment;
    CommentParts(code, comment);
    forall j: nat | j < |code|
      ensures !SlashesToEnd(line, j)
    {
      assert line[j] == code[j] && (j + 1 < |code| ==> line[j + 1] == code[j + 1]);
    }
    if StartsComment(line, |code|) {
      CutsFirstComment(line, |code|);
    } else {
      CutIsNot(line, |code|);
    }
  }

  lemma CutIsNot(line: string, n: nat)
    requires n < |line| && forall j: nat | j <= n :: !StartsComment(line, j)
    ensures CutLine(line) != line[..n]
  {
    hide StartsComment, CutFrom;
    if exists k: nat :: StartsComment(line, k) {
      var k := FirstComment(line);
      CutsFirstComment(line, k);
      InsideFirst(line, k);
    } else {
      CutFromNone(line, 0);
    }
  }

  lemma InsideFirst(line: string, k: nat)
    requires StartsComment(line, k)
    ensures k < |line|
  {
  }

  lemma FirstComment(line: string) returns (k: nat)
    requires exists k: nat :: StartsComment(line, k)
    ensures StartsComment(line, k) && forall j: nat | j < k :: !StartsComment(line, j)
  {
    hide StartsComment;
    k :| StartsComment(line, k);
    var i := k;
    while i > 0
      invariant 0 <= i <= k && StartsComment(line, k)
      invariant forall j: nat | i <= j < k :: !StartsComment(line, j)
    {
      i := i - 1;
      if StartsComment(line, i) { k := i; }
    }
  }

  /** A label in front of a comment is enough to keep it: nothing of this line is cut. */
  lemma ColonKeepsComments()
    ensures CutLine("default://note") == "default://note"
  {
    var line := "default://note";
    forall k: nat
      ensures !StartsComment(line, k)
    {
      if k < |line| - 1 && line[k] == '/' && line[k + 1] == '/' { assert k == 8; }
    }
    CutFromNone(line, 0);
  }

  /** Where the stripper does not keep its promise: `.` stops at a carriage return and `$` is the end of
      the string, so a line that keeps its carriage return keeps its comment. */
  lemma CarriageReturnKeepsComments(line: string)
    requires line != "" && IsTerminator(line[|line| - 1])
    ensures CutLine(line) == line
  {
    CutFromMeans(line, 0);
  }

  // ---------------------------------------------------------------- the allow annotation

  const ALLOW := "production-surface-allow:"

  function Lower(c: char): char {
    if 'A' <= c <= 'Z' then c - 'A' + 'a' else c
  }

  function LowerAll(s: string): string {
    seq(|s|, i requires 0 <= i < |s| => Lower(s[i]))
  }

  predicate IsRuleChar(c: char) {
    'a' <= Lower(c) <= 'z' || '0' <= c <= '9' || c == '-'
  }

  function SkipSpace(s: string, i: nat): (j: nat)
    requires i <= |s|
    ensures i <= j <= |s|
    ensures j == |s| || !IsSpace(s[j])
    ensures forall k | i <= k < j :: IsSpace(s[k])
    decreases |s| - i
  {
    if i < |s| && IsSpace(s[i]) then SkipSpace(s, i + 1) else i
  }

  function RuleRun(s: string, i: nat): (j: nat)
    requires i <= |s|
    ensures i <= j <= |s|
    ensures j == |s| || !IsRuleChar(s[j])
    ensures forall k | i <= k < j :: IsRuleChar(s[k])
    decreases |s| - i
  {
    if i < |s| && IsRuleChar(s[i]) then RuleRun(s, i + 1) else i
  }

  predicate MarkerAt(line: string, i: nat) {
    i + |ALLOW| <= |line| && LowerAll(line[i..i + |ALLOW|]) == ALLOW
  }

  /** The allow pattern matches at a position: the marker in any case, white space, a rule name. */
  predicate AllowAt(line: string, i: nat) {
    MarkerAt(line, i) && RuleStart(line, i) < |line| && IsRuleChar(line[RuleStart(line, i)])
  }

  function RuleStart(line: string, i: nat): nat
    requires MarkerAt(line, i)
  {
    SkipSpace(line, i + |ALLOW|)
  }

  /** The rule named by the leftmost match at or after a position, in lower case. */
  function AllowFrom(line: string, i: nat): (rule: Option<string>)
    ensures rule.None? ==> forall k: nat | i <= k :: !AllowAt(line, k)
    ensures rule.Some? ==> exists k: nat :: i <= k && AllowAt(line, k)
    decreases |line| - i
  {
    if i >= |line| then None
    else if AllowAt(line, i) then
      Some(LowerAll(line[RuleStart(line, i)..RuleRun(line, RuleStart(line, i))]))
    else AllowFrom(line, i + 1)
  }

  function AllowedRule(line: string): Option<string> {
    AllowFrom(line, 0)
  }

  /** What is read from an annotation: the rule written after the marker and any white space, up to the
      first character that is not of a rule name, in lower case. */
  lemma AllowedRuleReads(before: string, marker: string, space: string, rule: string, rest: string)
    requires |marker| == |ALLOW| && LowerAll(marker) == ALLOW
    requires (forall c <- space :: IsSpace(c)) && rule != "" && forall c <- rule :: IsRuleChar(c)
    requires rest == "" || !IsRuleChar(rest[0])
    requires var line := before + marker + space + rule + rest; forall k: nat | k < |before| :: !AllowAt(line, k)
    ensures AllowedRule(before + marker + space + rule + rest) == Some(LowerAll(rule))
  {
    hide LowerAll, IsSpace, IsRuleChar, SkipSpace, RuleRun;
    var line := before + marker + space + rule + rest;
    var at, start := |before|, |before| + |marker| + |space|;
    PartsInPlace(before, marker, space, rule, rest);
    assert rule[0] in rule;
    NoSpaceInRules(rule[0]);
    SkipTo(line, at + |marker|, start);
    RunTo(line, start, start + |rule|);
    assert AllowAt(line, at);
    AllowSkips(line, 0, at);
  }

  lemma PartsInPlace(before: string, marker: string, space: string, rule: string, rest: string)
    ensures var line, start := before + marker + space + rule + rest, |before| + |marker| + |space|;
            && line[|before|..|before| + |marker|] == marker && line[start..start + |rule|] == rule
            && (forall k | |before| + |marker| <= k < start :: line[k] in space)
            && (forall k | start <= k < start + |rule| :: line[k] in rule)
            && (rule != "" ==> line[start] == rule[0])
            && (rest != "" ==> line[start + |rule|] == rest[0])
  {
    var line, at, start := before + marker + space + rule + rest, |before| + |marker|, |before| + |marker| + |space|;
    assert forall k | at <= k < start :: line[k] == space[k - at];
    assert forall k | start <= k < start + |rule| :: line[k] == rule[k - start];
  }

  lemma NoSpaceInRules(c: char)
    requires IsRuleChar(c)
    ensures !IsSpace(c)
  {
  }

  lemma {:induction false} SkipTo(s: string, i: nat, j: nat)
    requires i <= j < |s| && (forall k | i <= k < j :: IsSpace(s[k])) && !IsSpace(s[j])
    ensures SkipSpace(s, i) == j
    decreases j - i
  {
    hide IsSpace;
    if i < j { SkipTo(s, i + 1, j); }
  }

  lemma {:induction false} RunTo(s: string, i: nat, j: nat)
    requires i <= j <= |s| && (forall k | i <= k < j :: IsRuleChar(s[k])) && (j < |s| ==> !IsRuleChar(s[j]))
    ensures RuleRun(s, i) == j
    decreases j - i
  {
    hide IsRuleChar;
    if i < j { RunTo(s, i + 1, j); }
  }

  lemma {:induction false} AllowSkips(line: string, i: nat, at: nat)
    requires i <= at < |line| && forall k: nat | i <= k < at :: !AllowAt(line, k)
    ensures AllowFrom(line, i) == AllowFrom(line, at)
    decreases at - i
  {
    hide AllowAt, RuleStart, RuleRun, LowerAll;
    if i < at { AllowSkips(line, i + 1, at); }
  }

  /** An annotation in a prefix of a line is an annotation of the line. */
  lemma AllowedPrefix(prefix: string, line: string)
    requires prefix <= line && AllowedRule(prefix).Some?
    ensures AllowedRule(line).Some?
  {
    hide AllowAt;
    var k: nat :| AllowAt(prefix, k);
    AllowAtPrefix(prefix, line, k);
  }

  lemma AllowAtPrefix(prefix: string, line: string, k: nat)
    requires prefix <= line && AllowAt(prefix, k)
    ensures AllowAt(line, k)
  {
    hide LowerAll, SkipSpace;
    assert prefix[k..k + |ALLOW|] == line[k..k + |ALLOW|];
    SameSkip(prefix, line, k + |ALLOW|);
  }

  lemma {:induction false} SameSkip(prefix: string, line: string, i: nat)
    requires prefix <= line && i <= |prefix| && SkipSpace(prefix, i) < |prefix|
    ensures SkipSpace(line, i) == SkipSpace(prefix, i)
    decreases |prefix| - i
  {
    if IsSpace(prefix[i]) { SameSkip(prefix, line, i + 1); }
  }

  // ---------------------------------------------------------------- stripComments

  function StripLine(line: string): string {
    if AllowedRule(line).Some? then line else CutLine(line)
  }

  function StripLines(lines: seq<string>): (stripped: seq<string>)
    ensures |stripped| == |lines|
  {
    seq(|lines|, i requires 0 <= i < |lines| => StripLine(lines[i]))
  }

  function StripComments(text: string): string {
    Join(StripLines(Split(BlankBlocks(text), '\n')), '\n')
  }

  lemma StripLineFixed(line: string)
    ensures StripLine(line) <= line && StripLine(StripLine(line)) == StripLine(line)
  {
    if AllowedRule(line).None? {
      CutFromMeans(line, 0);
      var cut := CutLine(line);
      if AllowedRule(cut).Some? {
        AllowedPrefix(cut, line);
      } else {
        CutFromMeans(cut, 0);
      }
    }
  }

  /** A line that ends in a line terminator; only the last line of a text may be empty instead. */
  predicate Terminated(line: string) {
    line == "" || IsTerminator(line[|line| - 1])
  }

  /** In a text whose lines all end so no line comment is cut: stripping blanks block comments, no more. */
  lemma TerminatedLinesKeepComments(text: string)
    requires forall line <- Split(BlankBlocks(text), '\n') :: Terminated(line)
    ensures StripComments(text) == BlankBlocks(text)
  {
    hide BlankBlocks, CutLine, AllowedRule, Split, Join;
    var lines := Split(BlankBlocks(text), '\n');
    forall i | 0 <= i < |lines|
      ensures StripLine(lines[i]) == lines[i]
    {
      assert lines[i] in lines;
      if lines[i] == "" { NothingToCut(); } else { CarriageReturnKeepsComments(lines[i]); }
    }
    assert StripLines(lines) == lines;
    JoinSplit(BlankBlocks(text), '\n');
  }

  lemma NothingToCut()
    ensures CutLine("") == ""
  {
  }

  /** So a file with CR LF line ends and no block comment comes back with every line comment in it. */
  lemma CrLfTextUnchanged(text: string)
    requires NoBlock(text) && forall line <- Split(text, '\n') :: line == "" || line[|line| - 1] == '\r'
    ensures StripComments(text) == text
  {
    hide StripComments, BlankBlocks, NoBlock, Split;
    BlankBlocksFixed(text);
    TerminatedLinesKeepComments(text);
  }

  predicate HasOpen(s: string) { exists i | 0 <= i < |s| :: Opens(s, i) }

  predicate HasClose(s: string) { exists j | 0 <= j < |s| :: Closes(s, j) }

  /** NoBlock of a text, said line by line: a comment mark never straddles a line feed. */
  ghost predicate CleanLines(lines: seq<string>) {
    && (forall l <- lines :: NoBlock(l))
    && (forall a, b | 0 <= a < b < |lines| :: !(HasOpen(lines[a]) && HasClose(lines[b])))
  }

  lemma NoBlockAcross(a: string, b: string)
    ensures NoBlock(a + "\n" + b) <==> NoBlock(a) && NoBlock(b) && !(HasOpen(a) && HasClose(b))
  {
    hide Opens, Closes;
    var t := a + "\n" + b;
    forall i: nat
      ensures Opens(t, i) <==> if i < |a| then Opens(a, i) else i > |a| && Opens(b, i - |a| - 1)
      ensures Closes(t, i) <==> if i < |a| then Closes(a, i) else i > |a| && Closes(b, i - |a| - 1)
    {
      MarksInLines(a, b, i);
    }
    if NoBlock(t) {
      forall i: nat, j: nat | i + 2 <= j
        ensures !(Opens(a, i) && Closes(a, j))
      {
        assert !(Opens(t, i) && Closes(t, j));
        MarkInside(a, j);
      }
      forall i: nat, j: nat | i + 2 <= j
        ensures !(Opens(b, i) && Closes(b, j))
      {
        assert !(Opens(t, i + |a| + 1) && Closes(t, j + |a| + 1));
      }
      forall i: nat, j: nat | i < |a|
        ensures !(Opens(a, i) && Closes(b, j))
      {
        assert !(Opens(t, i) && Closes(t, j + |a| + 1)) by {
          if i + 2 > j + |a| + 1 { MarkInside(a, i); }
        }
      }
    }
    if NoBlock(a) && NoBlock(b) && !(HasOpen(a) && HasClose(b)) {
      forall i: nat, j: nat | i + 2 <= j
        ensures !(Opens(t, i) && Closes(t, j))
      {
        if i < |a| && j > |a| {
          MarkInside(b, j - |a| - 1);
        }
      }
    }
  }

  lemma MarkInside(s: string, i: nat)
    ensures Opens(s, i) ==> i + 1 < |s|
    ensures Closes(s, i) ==> i + 1 < |s|
  {
  }

  lemma MarksInLines(a: string, b: string, i: nat)
    ensures var t := a + "\n" + b;
            && (Opens(t, i) <==> if i < |a| then Opens(a, i) else i > |a| && Opens(b, i - |a| - 1))
            && (Closes(t, i) <==> if i < |a| then Closes(a, i) else i > |a| && Closes(b, i - |a| - 1))
  {
  }

  lemma CloseAcross(a: string, b: string)
    ensures HasClose(a + "\n" + b) <==> HasClose(a) || HasClose(b)
  {
    hide Closes, Opens;
    var t := a + "\n" + b;
    forall i: nat
      ensures Closes(t, i) <==> if i < |a| then Closes(a, i) else i > |a| && Closes(b, i - |a| - 1)
    {
      MarksInLines(a, b, i);
    }
    if HasClose(b) {
      var j :| 0 <= j < |b| && Closes(b, j);
      assert Closes(t, j + |a| + 1);
    }
    if HasClose(a) {
      var j :| 0 <= j < |a| && Closes(a, j);
      assert Closes(t, j);
    }
  }

  lemma {:induction false} CleanJoin(lines: seq<string>)
    requires |lines| > 0
    ensures NoBlock(Join(lines, '\n')) <==> CleanLines(lines)
    ensures HasClose(Join(lines, '\n')) <==> exists l <- lines :: HasClose(l)
    decreases |lines|
  {
    hide NoBlock, HasOpen, HasClose;
    if |lines| > 1 {
      var rest := lines[1..];
      CleanJoin(rest);
      NoBlockAcross(lines[0], Join(rest, '\n'));
      CloseAcross(lines[0], Join(rest, '\n'));
      assert lines == [lines[0]] + rest;
      CleanCons(lines[0], rest);
    }
  }

  lemma CleanCons(first: string, rest: seq<string>)
    ensures CleanLines([first] + rest) <==>
            NoBlock(first) && CleanLines(rest) && !(HasOpen(first) && exists l <- rest :: HasClose(l))
  {
    hide NoBlock, HasOpen, HasClose;
    var lines := [first] + rest;
    assert forall k | 0 < k < |lines| :: lines[k] == rest[k - 1];
    if CleanLines(lines) {
      forall a, b | 0 <= a < b < |rest|
        ensures !(HasOpen(rest[a]) && HasClose(rest[b]))
      {
        assert !(HasOpen(lines[a + 1]) && HasClose(lines[b + 1]));
      }
      forall b | 0 <= b < |rest|
        ensures !(HasOpen(first) && HasClose(rest[b]))
      {
        assert !(HasOpen(lines[0]) && HasClose(lines[b + 1]));
      }
    }
  }

  lemma CleanPrefixes(lines: seq<string>, cut: seq<string>)
    requires CleanLines(lines) && |cut| == |lines|
    requires forall i | 0 <= i < |lines| :: cut[i] <= lines[i]
    ensures CleanLines(cut)
  {
    hide Opens, Closes;
    forall k | 0 <= k < |cut|
      ensures NoBlock(cut[k])
      ensures HasOpen(cut[k]) ==> HasOpen(lines[k])
      ensures HasClose(cut[k]) ==> HasClose(lines[k])
    {
      MarksInPrefix(cut[k], lines[k]);
    }
  }

  lemma MarksInPrefix(prefix: string, line: string)
    requires prefix <= line && NoBlock(line)
    ensures NoBlock(prefix)
    ensures HasOpen(prefix) ==> HasOpen(line)
    ensures HasClose(prefix) ==> HasClose(line)
  {
    hide Opens, Closes;
    forall i: nat
      ensures Opens(prefix, i) ==> Opens(line, i)
      ensures Closes(prefix, i) ==> Closes(line, i)
    {
      MarksBefore(prefix, line[|prefix|..], i);
      assert prefix + line[|prefix|..] == line;
    }
  }

  /** Stripping is idempotent on every text whatever its line ends: neither erasing a block comment nor
      cutting a line comment ever makes a new comment of either kind, or unmakes an annotation. */
  lemma StripCommentsIdempotent(text: string)
    ensures StripComments(StripComments(text)) == StripComments(text)
  {
    hide BlankBlocks, StripLine, NoBlock, Join, Split;
    var blanked := BlankBlocks(text);
    var lines := Split(blanked, '\n');
    var stripped := StripLines(lines);
    JoinSplit(blanked, '\n');
    BlankedHasNoBlock(text);
    CleanJoin(lines);
    forall i | 0 <= i < |lines|
      ensures stripped[i] <= lines[i] && '\n' !in stripped[i] && StripLine(stripped[i]) == stripped[i]
    {
      StripLineFixed(lines[i]);
      assert lines[i] in lines;
    }
    CleanPrefixes(lines, stripped);
    CleanJoin(stripped);
    BlankBlocksFixed(Join(stripped, '\n'));
    SplitJoin(stripped, '\n');
    assert StripLines(stripped) == stripped;
  }

  predicate MasksAll(raw: seq<string>, lines: seq<string>) {
    |raw| == |lines| && forall i | 0 <= i < |raw| :: |raw[i]| == |lines[i]| && Masks(raw[i], lines[i])
  }

  lemma {:induction false} SplitMasks(raw: string, t: string)
    requires Masks(raw, t) && |raw| == |t|
    ensures MasksAll(Split(raw, '\n'), Split(t, '\n'))
  {
    hide Masks, MasksAll;
    if raw == "" {
      MasksAllNew([], []);
      assert [""] + [] == [""];
    } else {
      MasksTail(raw, t);
      SplitMasks(raw[1..], t[1..]);
      var a, b := Split(raw[1..], '\n'), Split(t[1..], '\n');
      if raw[0] == '\n' {
        MasksAllNew(a, b);
      } else {
        MasksAllGrow(raw[0], t[0], a, b);
      }
    }
  }

  lemma MasksAllNew(raw: seq<string>, lines: seq<string>)
    requires raw == lines == [] || MasksAll(raw, lines)
    ensures MasksAll([""] + raw, [""] + lines)
  {
  }

  lemma MasksAllGrow(c: char, d: char, raw: seq<string>, lines: seq<string>)
    requires (d == c || (d == ' ' && c != '\n')) && raw != [] && lines != [] && MasksAll(raw, lines)
    ensures MasksAll([[c] + raw[0]] + raw[1..], [[d] + lines[0]] + lines[1..])
  {
    hide Masks;
    MasksCons(c, d, raw[0], lines[0]);
  }

  lemma MasksTail(raw: string, t: string)
    requires Masks(raw, t) && |raw| == |t| && raw != ""
    ensures Masks(raw[1..], t[1..]) && (t[0] == raw[0] || (t[0] == ' ' && raw[0] != '\n'))
    ensures t[0] == '\n' <==> raw[0] == '\n'
  {
    assert forall k | 0 <= k < |t| - 1 :: t[1..][k] == t[k + 1] && raw[1..][k] == raw[k + 1];
  }

  lemma MasksCons(c: char, d: char, raw: string, t: string)
    requires (d == c || (d == ' ' && c != '\n')) && Masks(raw, t)
    ensures Masks([c] + raw, [d] + t)
  {
  }

  /** Line alignment: as many lines as the raw text, each no longer than the raw line and holding at
      every column the raw character or a space. */
  lemma StripCommentsAligned(text: string)
    ensures var raw, lines := Split(text, '\n'), Split(StripComments(text), '\n');
            |lines| == |raw| && forall i | 0 <= i < |raw| :: Masks(raw[i], lines[i])
  {
    hide BlankBlocks, StripLine, Join, Split;
    var blanked := BlankBlocks(text);
    var lines := Split(blanked, '\n');
    JoinSplit(blanked, '\n');
    BlankBlocksMasks(text);
    SplitMasks(text, blanked);
    forall i | 0 <= i < |lines|
      ensures StripLine(lines[i]) <= lines[i] && '\n' !in StripLine(lines[i])
    {
      StripLineFixed(lines[i]);
      assert lines[i] in lines;
    }
    SplitJoin(StripLines(lines), '\n');
  }

  // ---------------------------------------------------------------- scanText

  datatype Rule = Rule(id: string, why: string, matches: string -> bool)

  datatype Finding = Finding(file: string, line: nat, ruleId: string, why: string, text: string)

  function LineAt(lines: seq<string>, i: int): string {
    if 0 <= i < |lines| then lines[i] else ""
  }

  /** The rule an annotation on this line, or else on the line above, allows. */
  function AllowedRuleAt(raw: seq<string>, i: nat): Option<string> {
    var here := AllowedRule(LineAt(raw, i));
    if here.Some? then here else AllowedRule(LineAt(raw, i - 1))
  }

  /** How far an annotation reaches: its own line, and the next one unless that has one of its own; and
      nothing else is allowed anywhere. */
  lemma AnnotationReach(raw: seq<string>, i: nat)
    requires i < |raw|
    ensures AllowedRule(raw[i]).Some? ==> AllowedRuleAt(raw, i) == AllowedRule(raw[i])
    ensures i + 1 < |raw| && AllowedRule(raw[i + 1]).None? ==> AllowedRuleAt(raw, i + 1) == AllowedRule(raw[i])
    ensures AllowedRuleAt(raw, i).Some? ==>
              exists j | i - 1 <= j <= i && 0 <= j :: AllowedRule(raw[j]) == AllowedRuleAt(raw, i)
  {
    hide AllowFrom;
    assert AllowedRule("").None? by { NothingAllowedNowhere(); }
  }

  lemma NothingAllowedNowhere()
    ensures AllowedRule("").None?
  {
  }

  function Excerpt(line: string): string {
    var t := Trim(line);
    if |t| > 160 then t[..160] else t
  }

  function ScannedLines(file: string, text: string): seq<string> {
    Split(if EndsWith(file, ".ts") || EndsWith(file, ".tsx") then StripComments(text) else text, '\n')
  }

  lemma ScannedLinesAligned(file: string, text: string)
    ensures var raw, lines := Split(text, '\n'), ScannedLines(file, text);
            |lines| == |raw| && forall i | 0 <= i < |raw| :: Masks(raw[i], lines[i])
  {
    StripCommentsAligned(text);
  }

  /** Rule r reports line i: it is not the allowed one and it matches what is left of the line. */
  predicate Reports(raw: seq<string>, lines: seq<string>, rule: Rule, i: nat) {
    i < |lines| && AllowedRuleAt(raw, i) != Some(rule.id) && rule.matches(lines[i])
  }

  function FindingOf(file: string, raw: seq<string>, rule: Rule, i: nat): Finding {
    Finding(file, i + 1, rule.id, rule.why, Excerpt(LineAt(raw, i)))
  }

  /** The findings of the first n rules on line i. */
  function LineFindings(file: string, raw: seq<string>, lines: seq<string>, rules: seq<Rule>, i: nat, n: nat): seq<Finding>
    requires n <= |rules|
  {
    if n == 0 then []
    else
      LineFindings(file, raw, lines, rules, i, n - 1)
        + if Reports(raw, lines, rules[n - 1], i) then [FindingOf(file, raw, rules[n - 1], i)] else []
  }

  /** The findings of the first k lines, by line and then by rule. */
  function Findings(file: string, raw: seq<string>, lines: seq<string>, rules: seq<Rule>, k: nat): seq<Finding> {
    if k == 0 then []
    else Findings(file, raw, lines, rules, k - 1) + LineFindings(file, raw, lines, rules, k - 1, |rules|)
  }

  method ScanText(file: string, text: string, rules: seq<Rule>) returns (findings: seq<Finding>)
    ensures findings == Findings(file, Split(text, '\n'), ScannedLines(file, text), rules, |Split(text, '\n')|)
  {
    hide ScannedLines, AllowedRuleAt, Excerpt;
    findings := [];
    var lines := ScannedLines(file, text);
    var raw := Split(text, '\n');
    ScannedLinesAligned(file, text);
    for i := 0 to |lines|
      invariant findings == Findings(file, raw, lines, rules, i)
    {
      var allowed := AllowedRuleAt(raw, i);
      ghost var before := findings;
      for r := 0 to |rules|
        invariant findings == before + LineFindings(file, raw, lines, rules, i, r)
      {
        if allowed != Some(rules[r].id) && rules[r].matches(lines[i]) {
          findings := findings + [FindingOf(file, raw, rules[r], i)];
        }
      }
    }
  }

  lemma {:induction false} LineFindingsExact(
      file: string, raw: seq<string>, lines: seq<string>, rules: seq<Rule>, i: nat, n: nat, f: Finding)
    requires n <= |rules|
    ensures f in LineFindings(file, raw, lines, rules, i, n) <==>
            exists r: nat :: r < n && Reports(raw, lines, rules[r], i) && f == FindingOf(file, raw, rules[r], i)
  {
    hide Reports, FindingOf;
    if n > 0 { LineFindingsExact(file, raw, lines, rules, i, n - 1, f); }
  }

  /** A finding is reported exactly when some rule, not the one allowed there, matches what is left of
      some line; so its line number and its quoted raw text are those of the line that matched. */
  lemma {:induction false} FindingsExact(
      file: string, raw: seq<string>, lines: seq<string>, rules: seq<Rule>, k: nat, f: Finding)
    ensures f in Findings(file, raw, lines, rules, k) <==>
            exists i: nat, r: nat :: i < k && r < |rules|
              && Reports(raw, lines, rules[r], i) && f == FindingOf(file, raw, rules[r], i)
  {
    hide Reports, FindingOf, LineFindings;
    if k > 0 {
      FindingsExact(file, raw, lines, rules, k - 1, f);
      LineFindingsExact(file, raw, lines, rules, k - 1, |rules|, f);
    }
  }

  /** An annotation silences at most one rule of a line. */
  lemma OneRuleSilenced(raw: seq<string>, lines: seq<string>, i: nat, p: Rule, q: Rule)
    requires i < |lines| && p.matches(lines[i]) && q.matches(lines[i])
    requires !Reports(raw, lines, p, i) && !Reports(raw, lines, q, i)
    ensures p.id == q.id && AllowedRuleAt(raw, i) == Some(p.id)
  {
    hide AllowedRuleAt;
  }
}
