/** What stripping and scanning do to a whole text, line by line and finding by finding. */
module SurfaceText {
  import opened Wrappers
  import opened Text
  import opened SurfaceComments
  import opened Trimming

  // ---------------------------------------------------------------- the stripped text

  /** What is left of a line: all of an annotated one and of one without a comment, otherwise what stands
      before its first comment. */
  ghost predicate Leaves(line: string, left: string) {
    if AllowedRule(line).Some? || forall k: nat :: !StartsComment(line, k) then left == line
    else
      exists k: nat ::
        StartsComment(line, k) && (forall j: nat | j < k :: !StartsComment(line, j)) && left == line[..k]
  }

  lemma StripLineLeaves(line: string)
    ensures Leaves(line, StripLine(line))
    ensures AllowedRule(StripLine(line)).None? ==> NoLineComment(StripLine(line))
  {
    hide StartsComment, NoLineComment, AllowFrom, CutFrom;
    if AllowedRule(line).None? {
      CutHasNoComment(line);
      if exists k: nat :: StartsComment(line, k) {
        var k := FirstComment(line);
        CutsFirstComment(line, k);
      } else {
        CutFromNone(line, 0);
      }
    }
  }

  lemma CutHasNoComment(line: string)
    ensures NoLineComment(CutLine(line))
  {
    CutFromMeans(line, 0);
  }

  lemma LinesStripped(text: string)
    ensures Split(StripComments(text), '\n') == StripLines(Split(BlankBlocks(text), '\n'))
  {
    hide BlankBlocks, StripLine, Join, Split;
    var lines := Split(BlankBlocks(text), '\n');
    JoinSplit(BlankBlocks(text), '\n');
    forall i | 0 <= i < |lines|
      ensures '\n' !in StripLine(lines[i])
    {
      StripLineFixed(lines[i]);
      assert lines[i] in lines;
    }
    SplitJoin(StripLines(lines), '\n');
  }

  /** Every line of a stripped text is what is left of the blanked text's line, and unless it carries an
      annotation no line comment is left in it. */
  lemma StrippedLine(text: string, i: nat)
    requires i < |Split(text, '\n')|
    ensures var lines, left := Split(BlankBlocks(text), '\n'), Split(StripComments(text), '\n');
            && |left| == |lines| == |Split(text, '\n')|
            && Leaves(lines[i], left[i])
            && (AllowedRule(left[i]).None? ==> NoLineComment(left[i]))
  {
    hide Leaves, StripLine, NoLineComment, BlankBlocks, StripComments, Split;
    LinesStripped(text);
    StripCommentsAligned(text);
    StripLineLeaves(Split(BlankBlocks(text), '\n')[i]);
  }

  // ---------------------------------------------------------------- annotations

  const LOWER := "abcdefghijklmnopqrstuvwxyz"
  const UPPER := "ABCDEFGHIJKLMNOPQRSTUVWXYZ"

  lemma LowerLetters(c: char)
    ensures c in LOWER <==> 'a' <= c <= 'z'
  {
    if 'a' <= c <= 'z' { assert LOWER[c as int - 'a' as int] == c; }
  }

  lemma UpperLetters(c: char)
    ensures c in UPPER <==> 'A' <= c <= 'Z'
  {
    if 'A' <= c <= 'Z' { assert UPPER[c as int - 'A' as int] == c; }
  }

  lemma Digits(c: char)
    ensures c in "0123456789" <==> '0' <= c <= '9'
  {
    if '0' <= c <= '9' { assert "0123456789"[c as int - '0' as int] == c; }
  }

  /** The characters of a rule name, spelled out; and upper case is read as lower case, letter by letter. */
  lemma RuleCharacters(c: char)
    ensures IsRuleChar(c) <==> c in LOWER || c in UPPER || c in "0123456789" || c == '-'
    ensures c !in UPPER ==> Lower(c) == c
  {
    hide *;
    LowerLetters(c);
    UpperLetters(c);
    Digits(c);
    RuleRanges(c);
  }

  lemma RuleRanges(c: char)
    ensures IsRuleChar(c) <==> 'a' <= c <= 'z' || 'A' <= c <= 'Z' || '0' <= c <= '9' || c == '-'
    ensures !('A' <= c <= 'Z') ==> Lower(c) == c
  {
  }

  lemma UpperIsLower(i: nat)
    requires i < 26
    ensures Lower(UPPER[i]) == LOWER[i]
  {
  }

  /** The four line terminators of JavaScript, and its white space. */
  lemma SpecialCharacters(c: char)
    ensures IsTerminator(c) <==> c in "\n\r\U{2028}\U{2029}"
    ensures IsSpace(c) <==>
            c in "\t\n\U{B}\U{C}\r \U{A0}\U{1680}\U{2000}\U{2001}\U{2002}\U{2003}\U{2004}\U{2005}\U{2006}\U{2007}\U{2008}\U{2009}\U{200A}\U{2028}\U{2029}\U{202F}\U{205F}\U{3000}\U{FEFF}"
  {
    var spaces := "\t\n\U{B}\U{C}\r \U{A0}\U{1680}\U{2000}\U{2001}\U{2002}\U{2003}\U{2004}\U{2005}\U{2006}\U{2007}\U{2008}\U{2009}\U{200A}\U{2028}\U{2029}\U{202F}\U{205F}\U{3000}\U{FEFF}";
    if '\t' <= c <= '\r' { assert spaces[c as int - 9] == c; }
    if '\U{2000}' <= c <= '\U{200A}' { assert spaces[8 + c as int - 0x2000] == c; }
    assert spaces[5] == ' ' && spaces[6] == '\U{A0}' && spaces[7] == '\U{1680}' && spaces[19] == '\U{2028}';
    assert spaces[20] == '\U{2029}' && spaces[21] == '\U{202F}' && spaces[22] == '\U{205F}' && spaces[23] == '\U{3000}' && spaces[24] == '\U{FEFF}';
    var ends := "\n\r\U{2028}\U{2029}";
    assert ends[0] == '\n' && ends[1] == '\r' && ends[2] == '\U{2028}' && ends[3] == '\U{2029}';
  }

  /** A line in the parts of an annotation: the marker in any case, white space, a rule name that ends there. */
  predicate Annotates(line: string, before: string, marker: string, space: string, rule: string, rest: string) {
    && line == before + marker + space + rule + rest
    && |marker| == |ALLOW| && LowerAll(marker) == ALLOW
    && (forall c <- space :: IsSpace(c))
    && rule != "" && (forall c <- rule :: IsRuleChar(c)) && (rest == "" || !IsRuleChar(rest[0]))
  }

  /** Where the line says so, an annotation is found. */
  lemma AnnotationFound(line: string, before: string, marker: string, space: string, rule: string, rest: string)
    requires Annotates(line, before, marker, space, rule, rest)
    ensures AllowAt(line, |before|) && AllowedRule(line).Some?
  {
    hide LowerAll, IsSpace, IsRuleChar, RuleRun;
    var at, start := |before| + |marker|, |before| + |marker| + |space|;
    PartsInPlace(before, marker, space, rule, rest);
    assert rule[0] in rule;
    NoSpaceInRules(rule[0]);
    SkipTo(line, at, start);
  }

  /** And what is found is there, in its parts; no annotation begins before it. */
  lemma AnnotationParts(line: string)
      returns (before: string, marker: string, space: string, rule: string, rest: string)
    requires AllowedRule(line).Some?
    ensures Annotates(line, before, marker, space, rule, rest) && AllowedRule(line) == Some(LowerAll(rule))
    ensures forall b: string, m: string, s: string, r: string, t: string ::
              Annotates(line, b, m, s, r, t) ==> |before| <= |b|
  {
    hide Annotates, AllowAt, AllowFrom, LowerAll;
    var k := FirstAllowed(line, 0);
    before, marker, space, rule, rest := PartsAt(line, k);
    forall b: string, m: string, s: string, r: string, t: string | Annotates(line, b, m, s, r, t)
      ensures |before| <= |b|
    {
      AnnotationFound(line, b, m, s, r, t);
    }
  }

  lemma PartsAt(line: string, k: nat)
      returns (before: string, marker: string, space: string, rule: string, rest: string)
    requires AllowAt(line, k)
    ensures Annotates(line, before, marker, space, rule, rest) && |before| == k
    ensures rule == line[RuleStart(line, k)..RuleRun(line, RuleStart(line, k))]
  {
    hide LowerAll, IsSpace, IsRuleChar;
    var at, start := k + |ALLOW|, RuleStart(line, k);
    var end := RuleRun(line, start);
    before, marker, space, rule, rest := line[..k], line[k..at], line[at..start], line[start..end], line[end..];
    FiveParts(line, k, at, start, end);
    assert IsRuleChar(line[start]);
    AllOf(line, at, start, IsSpace);
    AllOf(line, start, end, IsRuleChar);
  }

  lemma FiveParts(s: string, a: nat, b: nat, c: nat, d: nat)
    requires a <= b <= c <= d <= |s|
    ensures s == s[..a] + s[a..b] + s[b..c] + s[c..d] + s[d..]
  {
  }

  lemma AllOf(s: string, from: nat, to: nat, p: char -> bool)
    requires from <= to <= |s| && forall k | from <= k < to :: p(s[k])
    ensures forall c <- s[from..to] :: p(c)
  {
  }

  lemma {:induction false} FirstAllowed(line: string, i: nat) returns (k: nat)
    requires AllowFrom(line, i).Some?
    ensures i <= k && AllowAt(line, k)
    ensures AllowFrom(line, i) == Some(LowerAll(line[RuleStart(line, k)..RuleRun(line, RuleStart(line, k))]))
    ensures forall j: nat | i <= j < k :: !AllowAt(line, j)
    decreases |line| - i
  {
    hide AllowAt, LowerAll, RuleStart;
    if AllowAt(line, i) { k := i; } else { k := FirstAllowed(line, i + 1); }
  }

  // ---------------------------------------------------------------- what is scanned

  /** Only TypeScript is stripped. */
  lemma TypeScriptIsStripped(stem: string, text: string)
    ensures ScannedLines(stem + ".ts", text) == ScannedLines(stem + ".tsx", text) == Split(StripComments(text), '\n')
  {
    hide Split, StripComments;
    assert EndsWith(stem + ".ts", ".ts") && EndsWith(stem + ".tsx", ".tsx");
  }

  lemma OthersAreScannedRaw(file: string, text: string)
    requires forall stem: string :: file != stem + ".ts" && file != stem + ".tsx"
    ensures ScannedLines(file, text) == Split(text, '\n')
  {
    hide Split, StripComments;
    EndsInSuffix(file, ".ts");
    EndsInSuffix(file, ".tsx");
  }

  lemma EndsInSuffix(s: string, suffix: string)
    ensures EndsWith(s, suffix) <==> exists stem: string :: s == stem + suffix
  {
    if EndsWith(s, suffix) {
      var stem := s[..|s| - |suffix|];
      assert s == stem + suffix;
    }
  }

  // ---------------------------------------------------------------- what is reported

  /** The quoted text: the first 160 characters of the bared line. */
  ghost predicate Quotes(line: string, quoted: string) {
    exists t: string :: Bares(line, t) && quoted == if |t| > 160 then t[..160] else t
  }

  lemma ExcerptQuotes(line: string, quoted: string)
    ensures Quotes(line, quoted) <==> quoted == Excerpt(line)
  {
    hide Bares;
    TrimBares(line);
    forall t: string | Bares(line, t)
      ensures t == Trim(line)
    {
      BaresIsTrim(line, t);
    }
  }

  datatype Spot = Spot(line: nat, rule: nat)

  /** By line, and on one line in the order of the rules. */
  predicate Before(p: Spot, q: Spot) {
    p.line < q.line || (p.line == q.line && p.rule < q.rule)
  }

  ghost predicate InOrder(spots: seq<Spot>) {
    forall a, b | 0 <= a < b < |spots| :: Before(spots[a], spots[b])
  }

  /** A rule is broken at a line: it matches what is scanned of it and is not allowed by the raw lines. */
  predicate Breaks(raw: seq<string>, lines: seq<string>, rules: seq<Rule>, p: Spot) {
    && p.line < |raw| && p.line < |lines| && p.rule < |rules|
    && rules[p.rule].matches(lines[p.line])
    && AllowedRuleAt(raw, p.line) != Some(rules[p.rule].id)
  }

  /** A finding tells of a broken rule: lines are counted from one, and the raw line is quoted. */
  ghost predicate Tells(file: string, raw: seq<string>, rules: seq<Rule>, p: Spot, f: Finding) {
    && p.line < |raw| && p.rule < |rules|
    && f.file == file && f.line == p.line + 1
    && f.ruleId == rules[p.rule].id && f.why == rules[p.rule].why
    && Quotes(raw[p.line], f.text)
  }

  /** The findings are those of some broken rules, in order. */
  ghost predicate Tell(
      file: string, raw: seq<string>, lines: seq<string>, rules: seq<Rule>, spots: seq<Spot>, findings: seq<Finding>)
  {
    && |spots| == |findings| && InOrder(spots)
    && (forall a | 0 <= a < |spots| :: Breaks(raw, lines, rules, spots[a]) && Tells(file, raw, rules, spots[a], findings[a]))
  }

  lemma FindingTells(file: string, raw: seq<string>, rules: seq<Rule>, p: Spot)
    requires p.line < |raw| && p.rule < |rules|
    ensures Tells(file, raw, rules, p, FindingOf(file, raw, rules[p.rule], p.line))
  {
    hide Quotes, Excerpt;
    ExcerptQuotes(raw[p.line], Excerpt(raw[p.line]));
  }

  lemma BreaksReports(raw: seq<string>, lines: seq<string>, rules: seq<Rule>, p: Spot)
    requires |raw| == |lines| && p.line < |raw| && p.rule < |rules|
    ensures Breaks(raw, lines, rules, p) <==> Reports(raw, lines, rules[p.rule], p.line)
  {
    hide AllowedRuleAt;
  }

  /** The spots of line i and the first n rules. */
  lemma {:induction false} LineTells(
      file: string, raw: seq<string>, lines: seq<string>, rules: seq<Rule>, i: nat, n: nat) returns (spots: seq<Spot>)
    requires |raw| == |lines| && i < |raw| && n <= |rules|
    ensures Tell(file, raw, lines, rules, spots, LineFindings(file, raw, lines, rules, i, n))
    ensures forall p :: p in spots <==> p.line == i && p.rule < n && Breaks(raw, lines, rules, p)
  {
    hide Breaks, Tells, Reports, FindingOf;
    spots := [];
    if n > 0 {
      spots := LineTells(file, raw, lines, rules, i, n - 1);
      var p := Spot(i, n - 1);
      BreaksReports(raw, lines, rules, p);
      FindingTells(file, raw, rules, p);
      if Breaks(raw, lines, rules, p) {
        OneMore(file, raw, lines, rules, spots, LineFindings(file, raw, lines, rules, i, n - 1), p);
        spots := spots + [p];
      }
      forall q: Spot
        ensures q.line == i && q.rule < n <==> q == p || (q.line == i && q.rule < n - 1)
      {
      }
    }
  }

  lemma OneMore(
      file: string, raw: seq<string>, lines: seq<string>, rules: seq<Rule>, spots: seq<Spot>, findings: seq<Finding>, p: Spot)
    requires Tell(file, raw, lines, rules, spots, findings)
    requires Breaks(raw, lines, rules, p) && p.line < |raw| && p.rule < |rules|
    requires forall q <- spots :: Before(q, p)
    ensures Tell(file, raw, lines, rules, spots + [p], findings + [FindingOf(file, raw, rules[p.rule], p.line)])
  {
    hide Breaks, Tells, FindingOf, Before;
    FindingTells(file, raw, rules, p);
    forall a | 0 <= a < |spots|
      ensures Before(spots[a], p)
    {
      assert spots[a] in spots;
    }
  }

  lemma Together(
      file: string, raw: seq<string>, lines: seq<string>, rules: seq<Rule>,
      spots: seq<Spot>, findings: seq<Finding>, more: seq<Spot>, added: seq<Finding>)
    requires Tell(file, raw, lines, rules, spots, findings) && Tell(file, raw, lines, rules, more, added)
    requires forall p <- spots, q <- more :: Before(p, q)
    ensures Tell(file, raw, lines, rules, spots + more, findings + added)
  {
    hide Breaks, Tells, Before;
    forall a, b | 0 <= a < |spots| && 0 <= b < |more|
      ensures Before(spots[a], more[b])
    {
      assert spots[a] in spots && more[b] in more;
    }
  }

  lemma {:induction false} LinesTell(
      file: string, raw: seq<string>, lines: seq<string>, rules: seq<Rule>, k: nat) returns (spots: seq<Spot>)
    requires |raw| == |lines| && k <= |raw|
    ensures Tell(file, raw, lines, rules, spots, Findings(file, raw, lines, rules, k))
    ensures forall p :: p in spots <==> p.line < k && Breaks(raw, lines, rules, p)
  {
    hide Breaks, Tells, Tell, LineFindings;
    spots := [];
    if k == 0 {
      NothingTold(file, raw, lines, rules);
    } else {
      spots := LinesTell(file, raw, lines, rules, k - 1);
      var more := LineTells(file, raw, lines, rules, k - 1, |rules|);
      Together(file, raw, lines, rules, spots, Findings(file, raw, lines, rules, k - 1),
               more, LineFindings(file, raw, lines, rules, k - 1, |rules|));
      spots := spots + more;
      InRules(raw, lines, rules);
    }
  }

  lemma NothingTold(file: string, raw: seq<string>, lines: seq<string>, rules: seq<Rule>)
    ensures Tell(file, raw, lines, rules, [], [])
  {
  }

  lemma InRules(raw: seq<string>, lines: seq<string>, rules: seq<Rule>)
    ensures forall p :: Breaks(raw, lines, rules, p) ==> p.rule < |rules|
  {
  }

  /** The findings of a text: one for every rule broken at a line, and nothing else, by line and then in the
      order of the rules. */
  lemma FindingsOfText(file: string, text: string, rules: seq<Rule>) returns (spots: seq<Spot>)
    ensures var raw, lines := Split(text, '\n'), ScannedLines(file, text);
            && Tell(file, raw, lines, rules, spots, Findings(file, raw, lines, rules, |raw|))
            && forall p :: p in spots <==> Breaks(raw, lines, rules, p)
  {
    hide Breaks, Tells, Tell, Findings, ScannedLines, Split;
    ScannedLinesAligned(file, text);
    var raw, lines := Split(text, '\n'), ScannedLines(file, text);
    spots := LinesTell(file, raw, lines, rules, |raw|);
    InLines(raw, lines, rules);
  }

  lemma InLines(raw: seq<string>, lines: seq<string>, rules: seq<Rule>)
    ensures forall p :: Breaks(raw, lines, rules, p) ==> p.line < |raw|
  {
  }
}
