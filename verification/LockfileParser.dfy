/** The line-driven parser of scripts/lint/lockfile-sync.ts: pnpm's importers block, read by indent. */
module LockfileParser {
  import opened Wrappers
  import opened Text

  datatype DepGroup = Dependencies | DevDependencies | OptionalDependencies

  function GroupName(g: DepGroup): string {
    match g
    case Dependencies => "dependencies"
    case DevDependencies => "devDependencies"
    case OptionalDependencies => "optionalDependencies"
  }

  function GroupNamed(name: string): (g: Option<DepGroup>)
    ensures g.Some? ==> GroupName(g.value) == name
    ensures g.None? ==> forall d: DepGroup :: GroupName(d) != name
  {
    if name == GroupName(Dependencies) then Some(Dependencies)
    else if name == GroupName(DevDependencies) then Some(DevDependencies)
    else if name == GroupName(OptionalDependencies) then Some(OptionalDependencies)
    else None
  }

  /** Recorded specifiers by package name. */
  type Specs = map<string, string>

  /** One importer's specifiers, by group. */
  datatype ImporterSpecs = ImporterSpecs(dependencies: Specs, devDependencies: Specs, optionalDependencies: Specs) {
    function In(g: DepGroup): Specs {
      match g
      case Dependencies => dependencies
      case DevDependencies => devDependencies
      case OptionalDependencies => optionalDependencies
    }

    function With(g: DepGroup, specs: Specs): (r: ImporterSpecs)
      ensures r.In(g) == specs && forall h: DepGroup | h != g :: r.In(h) == In(h)
    {
      match g
      case Dependencies => this.(dependencies := specs)
      case DevDependencies => this.(devDependencies := specs)
      case OptionalDependencies => this.(optionalDependencies := specs)
    }
  }

  const EMPTY := ImporterSpecs(map[], map[], map[])

  type Importers = map<string, ImporterSpecs>

  // ---------------------------------------------------------------- tokens

  /** A token in a matching pair of quotes. */
  predicate Quoted(t: string) {
    |t| >= 2 && t[0] == t[|t| - 1] && (t[0] == '\'' || t[0] == '"')
  }

  function Unquote(raw: string): string {
    var t := Trim(raw);
    if Quoted(t) then t[1..|t| - 1] else t
  }

  function IndexOf(s: string, c: char): (i: Option<nat>)
    ensures i.None? <==> c !in s
    ensures i.Some? ==> i.value < |s| && s[i.value] == c && c !in s[..i.value]
  {
    if s == "" then None
    else if s[0] == c then Some(0)
    else
      match IndexOf(s[1..], c)
      case None => None
      case Some(i) => Some(i + 1)
  }

  datatype KeyValue = KeyValue(key: string, value: string)

  /** Split on the first colon only. */
  function SplitFirst(line: string): Option<KeyValue> {
    match IndexOf(line, ':')
    case None => None
    case Some(i) => Some(KeyValue(Unquote(line[..i]), Trim(line[i + 1..])))
  }

  function DropColon(s: string): string {
    if s != "" && s[|s| - 1] == ':' then s[..|s| - 1] else s
  }

  // ---------------------------------------------------------------- the parser

  datatype State = State(
    inBlock: bool, done: bool,
    importer: Option<string>, group: Option<DepGroup>, pkg: Option<string>,
    out: Importers)

  const START := State(false, false, None, None, None, map[])

  predicate Ignorable(line: string) {
    Trim(line) == "" || StartsWith(TrimStart(line), "#")
  }

  function Indent(line: string): int {
    |line| - |TrimStart(line)|
  }

  function Put(out: Importers, importer: string, g: DepGroup, name: string, spec: string): Importers {
    if importer in out then
      out[importer := out[importer].With(g, out[importer].In(g)[name := spec])]
    else out
  }

  function Open(out: Importers, importer: string): Importers {
    if importer in out then out else out[importer := EMPTY]
  }

  /** One line. `done` stands for having left the loop. */
  function Step(st: State, line: string): State {
    if st.done || Ignorable(line) then st
    else
      var indent, content := Indent(line), Trim(line);
      if !st.inBlock then
        if indent == 0 && StartsWith(line, "importers:") then st.(inBlock := true) else st
      else if indent == 0 then st.(done := true)
      else if indent == 2 then
        match SplitFirst(content)
        case None => st
        case Some(kv) => st.(importer := Some(kv.key), group := None, pkg := None, out := Open(st.out, kv.key))
      else if indent == 4 then st.(group := GroupNamed(Unquote(DropColon(content))), pkg := None)
      else if indent == 6 then
        if st.group.None? then st else st.(pkg := Some(Unquote(DropColon(content))))
      else if indent == 8 && st.importer.Some? && st.group.Some? && st.pkg.Some? then
        match SplitFirst(content)
        case None => st
        case Some(kv) =>
          if kv.key != "specifier" then st
          else st.(out := Put(st.out, st.importer.value, st.group.value, st.pkg.value, Unquote(kv.value)))
      else st
  }

  function Run(st: State, lines: seq<string>): State
    decreases |lines|
  {
    if lines == [] then st else Run(Step(st, lines[0]), lines[1..])
  }

  function Parsed(text: string): Importers {
    Run(START, Split(text, '\n')).out
  }

  /** parseImporters: the loop over the lines, its flags and its growing table. */
  method ParseImporters(text: string) returns (out: Importers)
    ensures out == Parsed(text)
  {
    hide Trim, Unquote, DropColon, GroupNamed, SplitFirst, Put, Open, Ignorable, Indent;
    out := map[];
    var lines := Split(text, '\n');
    var inBlock := false;
    var importer: Option<string> := None;
    var group: Option<DepGroup> := None;
    var pkg: Option<string> := None;
    var i := 0;
    while i < |lines|
      invariant 0 <= i <= |lines|
      invariant Run(START, lines) == Run(State(inBlock, false, importer, group, pkg, out), lines[i..])
    {
      var line := lines[i];
      ghost var st := State(inBlock, false, importer, group, pkg, out);
      assert lines[i..][0] == line && lines[i..][1..] == lines[i + 1..];
      i := i + 1;
      if Ignorable(line) { continue; }
      var indent := Indent(line);
      if !inBlock {
        if indent == 0 && StartsWith(line, "importers:") { inBlock := true; }
        continue;
      }
      if indent == 0 {
        DoneIsFinal(st.(done := true), lines[i..]);
        break;
      }
      var content := Trim(line);
      if indent == 2 {
        var kv := SplitFirst(content);
        if kv.None? { continue; }
        importer, group, pkg := Some(kv.value.key), None, None;
        out := Open(out, kv.value.key);
      } else if indent == 4 {
        group, pkg := GroupNamed(Unquote(DropColon(content))), None;
      } else if indent == 6 {
        if group.None? { continue; }
        pkg := Some(Unquote(DropColon(content)));
      } else if indent == 8 {
        if importer.None? || group.None? || pkg.None? { continue; }
        var kv := SplitFirst(content);
        if kv.None? || kv.value.key != "specifier" { continue; }
        out := Put(out, importer.value, group.value, pkg.value, Unquote(kv.value.value));
      }
    }
  }

  lemma {:induction false} DoneIsFinal(st: State, lines: seq<string>)
    requires st.done
    ensures Run(st, lines) == st
  {
    if lines != [] { DoneIsFinal(st, lines[1..]); }
  }

  lemma {:induction false} RunConcat(st: State, a: seq<string>, b: seq<string>)
    ensures Run(st, a + b) == Run(Run(st, a), b)
    decreases |a|
  {
    hide Step;
    if a == [] {
      assert a + b == b;
    } else {
      assert (a + b)[1..] == a[1..] + b;
      RunConcat(Step(st, a[0]), a[1..], b);
    }
  }

  // ---------------------------------------------------------------- lines that do not matter

  /** Blank lines, comments, lines at an indent the parser does not use, and keys beside `specifier`. */
  predicate Inert(line: string) {
    || Ignorable(line)
    || Indent(line) !in {0, 2, 4, 6, 8}
    || (Indent(line) == 8 && var kv := SplitFirst(Trim(line)); kv.None? || kv.value.key != "specifier")
  }

  function Significant(lines: seq<string>): seq<string> {
    if lines == [] then []
    else (if Inert(lines[0]) then [] else [lines[0]]) + Significant(lines[1..])
  }

  /** Inert lines can be inserted or removed anywhere, in any state. */
  lemma {:induction false} InertLinesChangeNothing(st: State, lines: seq<string>)
    ensures Run(st, lines) == Run(st, Significant(lines))
    decreases |lines|
  {
    hide Inert, Step;
    if lines != [] {
      if Inert(lines[0]) {
        InertStep(st, lines[0]);
        InertLinesChangeNothing(st, lines[1..]);
        assert Significant(lines) == Significant(lines[1..]);
      } else {
        InertLinesChangeNothing(Step(st, lines[0]), lines[1..]);
        var rest := Significant(lines[1..]);
        assert ([lines[0]] + rest)[1..] == rest;
      }
    }
  }

  lemma InertStep(st: State, line: string)
    requires Inert(line)
    ensures Step(st, line) == st
  {
    hide Trim, SplitFirst, Ignorable, Indent;
  }

  // ---------------------------------------------------------------- pnpm's layout

  /** A dependency as it is written: name and specifier may be quoted. */
  datatype DepDoc = DepDoc(name: string, spec: string)
  datatype GroupDoc = GroupDoc(group: DepGroup, deps: seq<DepDoc>)
  datatype ImporterDoc = ImporterDoc(path: string, groups: seq<GroupDoc>)

  /** A token that stands alone on its line: no space around it, not empty, not a comment. */
  predicate Token(raw: string) {
    raw != "" && !IsSpace(raw[0]) && !IsSpace(raw[|raw| - 1]) && raw[0] != '#' && '\n' !in raw
  }

  predicate Value(raw: string) {
    raw == "" || (!IsSpace(raw[0]) && !IsSpace(raw[|raw| - 1]) && '\n' !in raw)
  }

  predicate WritableDeps(deps: seq<DepDoc>) {
    forall dep <- deps :: Token(dep.name) && Value(dep.spec)
  }

  predicate WritableGroups(groups: seq<GroupDoc>) {
    forall g <- groups :: WritableDeps(g.deps)
  }

  predicate Writable(doc: seq<ImporterDoc>) {
    forall d <- doc :: Token(d.path) && ':' !in d.path && WritableGroups(d.groups)
  }

  function DepLines(deps: seq<DepDoc>): seq<string> {
    if deps == [] then []
    else ["      " + deps[0].name + ":", "        specifier: " + deps[0].spec] + DepLines(deps[1..])
  }

  function GroupLines(groups: seq<GroupDoc>): seq<string> {
    if groups == [] then []
    else ["    " + GroupName(groups[0].group) + ":"] + DepLines(groups[0].deps) + GroupLines(groups[1..])
  }

  function ImporterLines(doc: seq<ImporterDoc>): seq<string> {
    if doc == [] then []
    else ["  " + doc[0].path + ":"] + GroupLines(doc[0].groups) + ImporterLines(doc[1..])
  }

  // What a document says, read as a table rather than as lines.

  function DepTable(out: Importers, importer: string, g: DepGroup, deps: seq<DepDoc>): Importers
    decreases |deps|
  {
    if deps == [] then out
    else DepTable(Put(out, importer, g, Unquote(deps[0].name), Unquote(deps[0].spec)), importer, g, deps[1..])
  }

  function GroupTable(out: Importers, importer: string, groups: seq<GroupDoc>): Importers
    decreases |groups|
  {
    if groups == [] then out
    else GroupTable(DepTable(out, importer, groups[0].group, groups[0].deps), importer, groups[1..])
  }

  function Table(out: Importers, doc: seq<ImporterDoc>): Importers
    decreases |doc|
  {
    if doc == [] then out
    else
      var importer := Unquote(doc[0].path);
      Table(GroupTable(Open(out, importer), importer, doc[0].groups), doc[1..])
  }

  lemma {:induction false} IndentedContent(n: nat, content: string)
    requires Token(content)
    ensures var line := seq(n, _ => ' ') + content;
            TrimStart(line) == content && Trim(line) == content && Indent(line) == n && !Ignorable(line)
  {
    var line := seq(n, _ => ' ') + content;
    if n == 0 {
      assert line == content;
    } else {
      IndentedContent(n - 1, content);
      assert line[1..] == seq(n - 1, _ => ' ') + content;
    }
  }

  lemma ColonToken(raw: string)
    requires Token(raw)
    ensures Token(raw + ":") && DropColon(raw + ":") == raw
  {
  }

  lemma {:induction false} FirstColon(key: string, rest: string)
    requires ':' !in key
    ensures IndexOf(key + ":" + rest, ':') == Some(|key|)
  {
    if key == "" {
      assert key + ":" + rest == ":" + rest;
    } else {
      FirstColon(key[1..], rest);
      assert (key + ":" + rest)[1..] == key[1..] + ":" + rest;
    }
  }

  lemma TrimmedValue(raw: string)
    requires Value(raw)
    ensures Trim(raw) == raw && Trim(" " + raw) == raw
  {
    assert (" " + raw)[1..] == raw;
  }

  lemma ImporterStep(st: State, path: string)
    requires st.inBlock && !st.done && Token(path) && ':' !in path
    ensures Step(st, "  " + path + ":")
            == st.(importer := Some(Unquote(path)), group := None, pkg := None, out := Open(st.out, Unquote(path)))
  {
    hide Unquote, Trim, Indent, Ignorable, Token;
    var content := path + ":";
    ColonToken(path);
    IndentedContent(2, content);
    assert "  " + path + ":" == seq(2, _ => ' ') + content;
    FirstColon(path, "");
    assert content == path + ":" + "";
    assert content[..|path|] == path;
  }

  lemma GroupStep(st: State, g: DepGroup)
    requires st.inBlock && !st.done
    ensures Step(st, "    " + GroupName(g) + ":") == st.(group := Some(g), pkg := None)
  {
    hide Indent, Ignorable, Trim, Unquote, DropColon, Token, GroupName;
    var content := GroupName(g) + ":";
    GroupToken(g);
    ColonToken(GroupName(g));
    IndentedContent(4, content);
    assert "    " + GroupName(g) + ":" == seq(4, _ => ' ') + content;
  }

  lemma GroupToken(g: DepGroup)
    ensures Token(GroupName(g)) && Unquote(GroupName(g)) == GroupName(g) && GroupNamed(GroupName(g)) == Some(g)
  {
    hide Trim;
    TrimmedValue(GroupName(g));
  }

  lemma NameStep(st: State, name: string)
    requires st.inBlock && !st.done && st.group.Some? && Token(name)
    ensures Step(st, "      " + name + ":") == st.(pkg := Some(Unquote(name)))
  {
    hide Unquote, Trim, Indent, Ignorable, Token;
    ColonToken(name);
    IndentedContent(6, name + ":");
    assert "      " + name + ":" == seq(6, _ => ' ') + (name + ":");
  }

  lemma SpecifierStep(st: State, spec: string)
    requires st.inBlock && !st.done && st.importer.Some? && st.group.Some? && st.pkg.Some? && Value(spec)
    ensures Step(st, "        specifier: " + spec)
            == st.(out := Put(st.out, st.importer.value, st.group.value, st.pkg.value, Unquote(spec)))
  {
    hide Put;
    var line := "        specifier: " + spec;
    TrimmedValue(spec);
    SpecifierLine(spec);
  }

  lemma SpecifierLine(spec: string)
    requires Value(spec)
    ensures var line := "        specifier: " + spec;
            && Indent(line) == 8 && !Ignorable(line)
            && SplitFirst(Trim(line)) == Some(KeyValue("specifier", spec))
  {
    hide *;
    assert Token("specifier") && ':' !in "specifier" && Unquote("specifier") == "specifier" by {
      BareKey();
    }
    KeyLine(8, "specifier", spec);
    assert "        specifier: " + spec == seq(8, _ => ' ') + ("specifier" + ": " + spec);
  }

  lemma BareKey()
    ensures Token("specifier") && ':' !in "specifier" && Unquote("specifier") == "specifier"
  {
    hide Trim;
    TrimmedValue("specifier");
  }

  lemma KeyLine(n: nat, key: string, spec: string)
    requires Token(key) && ':' !in key && Value(spec)
    ensures var line := seq(n, _ => ' ') + (key + ": " + spec);
            && Indent(line) == n && !Ignorable(line)
            && SplitFirst(Trim(line)) == Some(KeyValue(Unquote(key), spec))
  {
    hide Unquote, TrimStart, Trim, Ignorable, Indent, Token, Value;
    TrimKeyLine(n, key, spec);
    TrimmedValue(spec);
    var rest := if spec == "" then "" else " " + spec;
    var trimmed := key + ":" + rest;
    FirstColon(key, rest);
    assert trimmed[..|key|] == key && trimmed[|key| + 1..] == rest;
  }

  lemma TrimKeyLine(n: nat, key: string, spec: string)
    requires Token(key) && Value(spec)
    ensures var line := seq(n, _ => ' ') + (key + ": " + spec);
            && Indent(line) == n && !Ignorable(line)
            && Trim(line) == key + ":" + (if spec == "" then "" else " " + spec)
  {
    hide TrimStart, TrimEnd;
    var content := key + ": " + spec;
    var trimmed := key + ":" + if spec == "" then "" else " " + spec;
    TrimSpaces(n, content);
    assert |seq(n, _ => ' ') + content| == n + |content|;
    assert trimmed[0] == key[0] && !IsSpace(key[0]) && key[0] != '#';
    if spec == "" {
      assert content == (key + ":") + " ";
      TrimEndSpace(key + ":");
    } else {
      assert content == trimmed;
      TrimEndNothing(content);
    }
  }

  lemma TrimEndNothing(t: string)
    requires t != "" && !IsSpace(t[|t| - 1])
    ensures TrimEnd(t) == t
  {
  }

  lemma TrimEndSpace(t: string)
    requires t != "" && !IsSpace(t[|t| - 1])
    ensures TrimEnd(t + " ") == t
  {
    assert (t + " ")[..|t|] == t;
  }

  lemma {:induction false} TrimSpaces(n: nat, rest: string)
    requires rest != "" && !IsSpace(rest[0])
    ensures TrimStart(seq(n, _ => ' ') + rest) == rest
  {
    var line := seq(n, _ => ' ') + rest;
    if n == 0 {
      assert line == rest;
    } else {
      TrimSpaces(n - 1, rest);
      assert line[1..] == seq(n - 1, _ => ' ') + rest;
    }
  }

  /** The parser is in the block, inside this importer. */
  predicate At(st: State, importer: string) {
    st.inBlock && !st.done && st.importer == Some(importer) && importer in st.out
  }

  lemma {:induction false} DepsRun(st: State, importer: string, g: DepGroup, deps: seq<DepDoc>)
    requires At(st, importer) && st.group == Some(g)
    requires WritableDeps(deps)
    ensures var end := Run(st, DepLines(deps));
            At(end, importer) && end.group == Some(g) && end.out == DepTable(st.out, importer, g, deps)
    decreases |deps|
  {
    hide Step, Unquote, Token, Value;
    if deps != [] {
      var name, spec := deps[0].name, deps[0].spec;
      assert deps[0] in deps;
      var lines := ["      " + name + ":", "        specifier: " + spec];
      NameStep(st, name);
      var named := st.(pkg := Some(Unquote(name)));
      SpecifierStep(named, spec);
      var next := named.(out := Put(st.out, importer, g, Unquote(name), Unquote(spec)));
      RunTwo(st, lines[0], lines[1]);
      RunConcat(st, lines, DepLines(deps[1..]));
      DepsRun(next, importer, g, deps[1..]);
    }
  }

  lemma RunTwo(st: State, a: string, b: string)
    ensures Run(st, [a]) == Step(st, a)
    ensures Run(st, [a, b]) == Step(Step(st, a), b)
  {
    hide Step;
    assert [a][1..] == [];
    assert [a, b][1..] == [b];
    assert Run(Step(st, a), [b]) == Step(Step(st, a), b);
  }

  lemma AtGroup(st: State, importer: string, g: DepGroup)
    requires At(st, importer)
    ensures st.inBlock && !st.done && At(st.(group := Some(g), pkg := None), importer)
  {
  }

  lemma {:induction false} GroupsRun(st: State, importer: string, groups: seq<GroupDoc>)
    requires At(st, importer)
    requires WritableGroups(groups)
    ensures var end := Run(st, GroupLines(groups));
            At(end, importer) && end.out == GroupTable(st.out, importer, groups)
    decreases |groups|
  {
    if groups != [] {
      hide Step, WritableDeps, Run, At, DepLines, DepTable, GroupName;
      assert At(st, importer);
      var g := groups[0];
      assert g in groups;
      var line := "    " + GroupName(g.group) + ":";
      AtGroup(st, importer, g.group);
      GroupStep(st, g.group);
      RunTwo(st, line, line);
      var entered := st.(group := Some(g.group), pkg := None);
      DepsRun(entered, importer, g.group, g.deps);
      RunConcat(st, [line], DepLines(g.deps));
      RunConcat(st, [line] + DepLines(g.deps), GroupLines(groups[1..]));
      GroupsRun(Run(entered, DepLines(g.deps)), importer, groups[1..]);
    }
  }

  lemma {:induction false} DocRun(st: State, doc: seq<ImporterDoc>)
    requires st.inBlock && !st.done && Writable(doc)
    ensures var end := Run(st, ImporterLines(doc));
            end.inBlock && !end.done && end.out == Table(st.out, doc)
    decreases |doc|
  {
    hide Step, Token, WritableGroups, Unquote;
    if doc != [] {
      var d := doc[0];
      assert d in doc;
      var line := "  " + d.path + ":";
      ImporterStep(st, d.path);
      RunTwo(st, line, line);
      var importer := Unquote(d.path);
      var entered := st.(importer := Some(importer), group := None, pkg := None, out := Open(st.out, importer));
      GroupsRun(entered, importer, d.groups);
      RunConcat(st, [line], GroupLines(d.groups));
      RunConcat(st, [line] + GroupLines(d.groups), ImporterLines(doc[1..]));
      DocRun(Run(entered, GroupLines(d.groups)), doc[1..]);
    }
  }

  /** A line that starts the importers block. */
  predicate StartsBlock(line: string) {
    !Ignorable(line) && Indent(line) == 0 && StartsWith(line, "importers:")
  }

  predicate TopLevel(line: string) {
    !Ignorable(line) && Indent(line) == 0
  }

  lemma {:induction false} PreambleRun(lines: seq<string>)
    requires forall line <- lines :: !StartsBlock(line)
    ensures Run(START, lines) == START
  {
    hide Ignorable, Indent, StartsWith;
    if lines != [] {
      assert lines[0] in lines;
      PreambleRun(lines[1..]);
    }
  }

  /** Round trip: whatever precedes the block, whatever follows the next top-level key, and whatever
      inert lines stand between, parsing a written table returns the table. */
  lemma ParseInvertsPrint(
      preamble: seq<string>, start: string, body: seq<string>, tail: seq<string>, doc: seq<ImporterDoc>)
    requires Writable(doc) && Significant(body) == ImporterLines(doc)
    requires forall line <- preamble :: !StartsBlock(line)
    requires StartsBlock(start)
    requires tail == [] || TopLevel(tail[0])
    requires Free(preamble + [start] + body + tail, '\n')
    ensures Parsed(Join(preamble + [start] + body + tail, '\n')) == Table(map[], doc)
  {
    hide Step, Writable, StartsBlock, TopLevel, Ignorable, Significant, ImporterLines, Table, Split, Join;
    var lines := preamble + [start] + body + tail;
    SplitJoin(lines, '\n');
    PreambleRun(preamble);
    RunConcat(START, preamble, [start]);
    StartStep(start);
    var entered := START.(inBlock := true);
    RunConcat(START, preamble + [start], body);
    InertLinesChangeNothing(entered, body);
    DocRun(entered, doc);
    RunConcat(START, preamble + [start] + body, tail);
    var end := Run(entered, body);
    if tail != [] {
      TopLevelStep(end, tail[0]);
      DoneIsFinal(end.(done := true), tail[1..]);
    }
  }

  lemma StartStep(start: string)
    requires StartsBlock(start)
    ensures Run(START, [start]) == START.(inBlock := true)
  {
    hide Ignorable, Indent;
    RunTwo(START, start, start);
  }

  lemma TopLevelStep(st: State, line: string)
    requires TopLevel(line) && st.inBlock && !st.done
    ensures Step(st, line) == st.(done := true)
  {
    hide Ignorable, Indent;
  }

  /** A token in two quotes of a kind stands for what is between them, any other for itself. */
  lemma TokenStandsFor(raw: string)
    requires Value(raw)
    ensures Unquote(raw) ==
            if |raw| >= 2 && (raw[0] == raw[|raw| - 1] == '\'' || raw[0] == raw[|raw| - 1] == '"') then raw[1..|raw| - 1]
            else raw
  {
    TrimmedValue(raw);
  }

  /** How pnpm writes a name or a specifier: as it is, or in quotes where it would be taken for something else. */
  predicate Bare(v: string) {
    v != "" && !IsSpace(v[0]) && !IsSpace(v[|v| - 1]) && v[0] != '#' && v[0] != '\'' && v[0] != '"'
  }

  function Spell(v: string): string {
    if Bare(v) then v else "'" + v + "'"
  }

  /** Written so, anything on one line is a token that stands for itself. */
  lemma Spelled(v: string)
    requires '\n' !in v
    ensures Token(Spell(v)) && Value(Spell(v)) && Unquote(Spell(v)) == v && Spell(v) != ""
    ensures ':' !in v ==> ':' !in Spell(v)
  {
    hide Unquote, IsSpace;
    var q := Spell(v);
    QuoteIsNoSpace();
    assert Value(q);
    TokenStandsFor(q);
    assert !Bare(v) ==> q[1..|q| - 1] == v;
  }

  lemma QuoteIsNoSpace()
    ensures !IsSpace('\'') && !IsSpace('"')
  {
  }

  // ---------------------------------------------------------------- every table can be written

  predicate PrintableSpecs(specs: Specs) {
    forall n <- specs :: '\n' !in n && '\n' !in specs[n]
  }

  /** No line feeds anywhere, and no colon in an importer's path. */
  predicate Printable(m: Importers) {
    forall p <- m :: '\n' !in p && ':' !in p
      && PrintableSpecs(m[p].dependencies) && PrintableSpecs(m[p].devDependencies) && PrintableSpecs(m[p].optionalDependencies)
  }

  /** What written dependencies add to the specifiers read so far. */
  function SpecTable(out: Specs, deps: seq<DepDoc>): Specs
    decreases |deps|
  {
    if deps == [] then out else SpecTable(out[Unquote(deps[0].name) := Unquote(deps[0].spec)], deps[1..])
  }

  lemma {:induction false} DepTableIsSpecTable(out: Importers, importer: string, g: DepGroup, deps: seq<DepDoc>)
    requires importer in out
    ensures DepTable(out, importer, g, deps)
            == out[importer := out[importer].With(g, SpecTable(out[importer].In(g), deps))]
    decreases |deps|
  {
    hide Unquote;
    if deps != [] {
      DepTableIsSpecTable(Put(out, importer, g, Unquote(deps[0].name), Unquote(deps[0].spec)), importer, g, deps[1..]);
    }
  }

  lemma {:induction false} WriteDeps(specs: Specs) returns (deps: seq<DepDoc>)
    requires PrintableSpecs(specs)
    ensures WritableDeps(deps)
    ensures SpelledFrom(deps, specs)
    ensures forall out: Specs :: SpecTable(out, deps) == out + specs
    decreases |specs|
  {
    if specs == map[] {
      deps := [];
      assert forall out: Specs :: out + specs == out;
    } else {
      var n :| n in specs;
      SplitEntry(specs, n);
      var rest := WriteDeps(specs - {n});
      Spelled(n);
      Spelled(specs[n]);
      hide Unquote, Token, Value, Spell;
      deps := [DepDoc(Spell(n), Spell(specs[n]))] + rest;
      OneMoreSpelled(specs, n, rest);
      hide PrintableSpecs, WritableDeps, SpelledFrom;
      forall out: Specs
        ensures SpecTable(out, deps) == out + specs
      {
        assert deps[0] == DepDoc(Spell(n), Spell(specs[n])) && deps[1..] == rest;
        AddSpec(out, specs, n);
        assert SpecTable(out[n := specs[n]], rest) == out[n := specs[n]] + (specs - {n});
      }
    }
  }

  /** Every dependency is written as one of the table's. */
  predicate SpelledFrom(deps: seq<DepDoc>, specs: Specs) {
    forall d <- deps :: exists n <- specs :: d == DepDoc(Spell(n), Spell(specs[n]))
  }

  lemma OneMoreSpelled(specs: Specs, n: string, rest: seq<DepDoc>)
    requires n in specs && SpelledFrom(rest, specs - {n})
    ensures SpelledFrom([DepDoc(Spell(n), Spell(specs[n]))] + rest, specs)
  {
    hide Spell;
    forall d <- rest
      ensures exists m <- specs :: d == DepDoc(Spell(m), Spell(specs[m]))
    {
      var m :| m in specs - {n} && d == DepDoc(Spell(m), Spell((specs - {n})[m]));
      assert m in specs && specs[m] == (specs - {n})[m];
    }
  }

  lemma SplitEntry(specs: Specs, n: string)
    requires n in specs && PrintableSpecs(specs)
    ensures |specs - {n}| < |specs| && PrintableSpecs(specs - {n})
  {
    assert (specs - {n}).Keys == specs.Keys - {n};
  }

  lemma AddSpec(out: Specs, specs: Specs, n: string)
    requires n in specs
    ensures out[n := specs[n]] + (specs - {n}) == out + specs
  {
  }

  lemma WriteImporter(path: string, specs: ImporterSpecs) returns (d: ImporterDoc)
    requires '\n' !in path && ':' !in path
    requires PrintableSpecs(specs.dependencies) && PrintableSpecs(specs.devDependencies)
    requires PrintableSpecs(specs.optionalDependencies)
    ensures Writable([d]) && Unquote(d.path) == path
    ensures forall out: Importers | path !in out ::
              GroupTable(Open(out, path), path, d.groups) == out[path := specs]
  {
    hide Unquote, Token, Value, GroupTable, GroupSpecs, PrintableSpecs, WritableDeps, SpecTable;
    Spelled(path);
    var a := WriteDeps(specs.dependencies);
    var b := WriteDeps(specs.devDependencies);
    var c := WriteDeps(specs.optionalDependencies);
    d := ImporterDoc(Spell(path), [GroupDoc(Dependencies, a), GroupDoc(DevDependencies, b), GroupDoc(OptionalDependencies, c)]);
    forall out: Importers | path !in out
      ensures GroupTable(Open(out, path), path, d.groups) == out[path := specs]
    {
      GroupTableIsGroupSpecs(out[path := EMPTY], path, d.groups);
      ThreeGroups(a, b, c);
      assert forall m: Specs :: map[] + m == m;
      assert out[path := EMPTY][path := specs] == out[path := specs];
    }
  }

  function GroupSpecs(specs: ImporterSpecs, groups: seq<GroupDoc>): ImporterSpecs
    decreases |groups|
  {
    if groups == [] then specs
    else GroupSpecs(specs.With(groups[0].group, SpecTable(specs.In(groups[0].group), groups[0].deps)), groups[1..])
  }

  lemma {:induction false} GroupTableIsGroupSpecs(out: Importers, p: string, groups: seq<GroupDoc>)
    requires p in out
    ensures GroupTable(out, p, groups) == out[p := GroupSpecs(out[p], groups)]
    decreases |groups|
  {
    hide DepTable, SpecTable;
    if groups != [] {
      var g := groups[0];
      DepTableIsSpecTable(out, p, g.group, g.deps);
      var next := out[p := out[p].With(g.group, SpecTable(out[p].In(g.group), g.deps))];
      GroupTableIsGroupSpecs(next, p, groups[1..]);
    }
  }

  lemma ThreeGroups(a: seq<DepDoc>, b: seq<DepDoc>, c: seq<DepDoc>)
    ensures GroupSpecs(EMPTY, [GroupDoc(Dependencies, a), GroupDoc(DevDependencies, b), GroupDoc(OptionalDependencies, c)])
            == ImporterSpecs(SpecTable(map[], a), SpecTable(map[], b), SpecTable(map[], c))
  {
    hide SpecTable;
    var one, two := GroupDoc(OptionalDependencies, c), GroupDoc(DevDependencies, b);
    var three := GroupDoc(Dependencies, a);
    assert [three, two, one][1..] == [two, one] && [two, one][1..] == [one] && [one][1..] == [];
    var x := ImporterSpecs(SpecTable(map[], a), SpecTable(map[], b), map[]);
    assert GroupSpecs(x, [one]) == x.(optionalDependencies := SpecTable(map[], c));
    assert GroupSpecs(x.(devDependencies := map[]), [two, one]) == GroupSpecs(x, [one]);
  }

  lemma {:induction false} WriteTable(m: Importers) returns (doc: seq<ImporterDoc>)
    requires Printable(m)
    ensures Writable(doc)
    ensures forall out: Importers | out.Keys !! m.Keys :: Table(out, doc) == out + m
    decreases |m|
  {
    hide Unquote, Token, Value, DepTable, GroupTable, PrintableSpecs;
    if m == map[] {
      doc := [];
      assert forall out: Importers :: out + m == out;
    } else {
      var p :| p in m;
      var fewer := m - {p};
      assert |fewer| < |m| by { assert fewer.Keys == m.Keys - {p}; }
      var rest := WriteTable(fewer);
      var d := WriteImporter(p, m[p]);
      assert d in [d];
      doc := [d] + rest;
      hide Writable, WritableGroups;
      forall out: Importers | out.Keys !! m.Keys
        ensures Table(out, doc) == out + m
      {
        assert doc[0] == d && doc[1..] == rest;
        AddEntry(out, m, p);
        assert Table(out[p := m[p]], rest) == out[p := m[p]] + fewer;
      }
    }
  }

  lemma AddEntry(out: Importers, m: Importers, p: string)
    requires p in m && out.Keys !! m.Keys
    ensures out[p := m[p]].Keys !! (m - {p}).Keys && out[p := m[p]] + (m - {p}) == out + m
  {
  }

  lemma {:induction false} DepLinesFree(deps: seq<DepDoc>)
    requires WritableDeps(deps)
    ensures Free(DepLines(deps), '\n')
  {
    if deps != [] { assert deps[0] in deps; DepLinesFree(deps[1..]); }
  }

  lemma NameIsOneLine(g: DepGroup)
    ensures '\n' !in "    " + GroupName(g) + ":"
  {
  }

  lemma {:induction false} GroupLinesFree(groups: seq<GroupDoc>)
    requires WritableGroups(groups)
    ensures Free(GroupLines(groups), '\n')
  {
    hide WritableDeps, DepLines;
    if groups != [] {
      hide GroupName;
      assert '\n' !in "    " + GroupName(groups[0].group) + ":" by { NameIsOneLine(groups[0].group); }
      assert groups[0] in groups;
      DepLinesFree(groups[0].deps);
      GroupLinesFree(groups[1..]);
    }
  }

  lemma {:induction false} ImporterLinesFree(doc: seq<ImporterDoc>)
    requires Writable(doc)
    ensures Free(ImporterLines(doc), '\n')
  {
    hide WritableGroups, GroupLines;
    if doc != [] {
      assert doc[0] in doc;
      GroupLinesFree(doc[0].groups);
      ImporterLinesFree(doc[1..]);
    }
  }

  lemma {:induction false} SignificantConcat(a: seq<string>, b: seq<string>)
    ensures Significant(a + b) == Significant(a) + Significant(b)
    decreases |a|
  {
    hide Inert;
    if a == [] {
      assert a + b == b;
    } else {
      assert (a + b)[1..] == a[1..] + b;
      SignificantConcat(a[1..], b);
    }
  }

  lemma SignificantLine(line: string)
    requires !Inert(line)
    ensures Significant([line]) == [line]
  {
    hide Inert;
  }

  /** A token and its colon at an indent the parser uses. */
  lemma KeyMatters(n: nat, token: string)
    requires Token(token) && n in {2, 4, 6}
    ensures Significant([seq(n, _ => ' ') + (token + ":")]) == [seq(n, _ => ' ') + (token + ":")]
  {
    hide Trim, Ignorable, Indent, Token, SplitFirst;
    ColonToken(token);
    IndentedContent(n, token + ":");
    SignificantLine(seq(n, _ => ' ') + (token + ":"));
  }

  lemma SpecifierMatters(spec: string)
    requires Value(spec)
    ensures Significant(["        specifier: " + spec]) == ["        specifier: " + spec]
  {
    hide Trim, Ignorable, Indent, SplitFirst, Value;
    SpecifierLine(spec);
    SignificantLine("        specifier: " + spec);
  }

  lemma {:induction false} DepLinesMatter(deps: seq<DepDoc>)
    requires WritableDeps(deps)
    ensures Significant(DepLines(deps)) == DepLines(deps)
  {
    hide Inert, Significant, Token, Value;
    if deps == [] {
      NothingMatters();
    } else {
      var d := deps[0];
      assert d in deps;
      var name, spec := "      " + d.name + ":", "        specifier: " + d.spec;
      assert name == seq(6, _ => ' ') + (d.name + ":");
      KeyMatters(6, d.name);
      SpecifierMatters(d.spec);
      DepLinesMatter(deps[1..]);
      SignificantConcat([name], [spec]);
      SignificantConcat([name] + [spec], DepLines(deps[1..]));
      assert [name, spec] == [name] + [spec];
    }
  }

  lemma NothingMatters()
    ensures Significant([]) == []
  {
  }

  lemma {:induction false} GroupLinesMatter(groups: seq<GroupDoc>)
    requires WritableGroups(groups)
    ensures Significant(GroupLines(groups)) == GroupLines(groups)
  {
    hide Inert, Significant, Token, WritableDeps, DepLines, GroupName;
    if groups == [] {
      NothingMatters();
    } else {
      var g := groups[0];
      assert g in groups;
      var line := "    " + GroupName(g.group) + ":";
      assert line == seq(4, _ => ' ') + (GroupName(g.group) + ":");
      GroupToken(g.group);
      KeyMatters(4, GroupName(g.group));
      DepLinesMatter(g.deps);
      GroupLinesMatter(groups[1..]);
      SignificantConcat([line], DepLines(g.deps));
      SignificantConcat([line] + DepLines(g.deps), GroupLines(groups[1..]));
    }
  }

  /** None of the lines a table is written in is inert. */
  lemma {:induction false} ImporterLinesMatter(doc: seq<ImporterDoc>)
    requires Writable(doc)
    ensures Significant(ImporterLines(doc)) == ImporterLines(doc)
  {
    hide Inert, Significant, Token, WritableGroups, GroupLines;
    if doc == [] {
      NothingMatters();
    } else {
      var d := doc[0];
      assert d in doc;
      var line := "  " + d.path + ":";
      assert line == seq(2, _ => ' ') + (d.path + ":");
      KeyMatters(2, d.path);
      GroupLinesMatter(d.groups);
      ImporterLinesMatter(doc[1..]);
      SignificantConcat([line], GroupLines(d.groups));
      SignificantConcat([line] + GroupLines(d.groups), ImporterLines(doc[1..]));
    }
  }

  /** Every table whose strings fit on a line is the parse of some text in pnpm's layout: names and
      specifiers may hold any characters, colons and quotes included. */
  lemma EveryTableRoundTrips(m: Importers) returns (doc: seq<ImporterDoc>)
    requires Printable(m)
    ensures Writable(doc)
    ensures Parsed(Join(["importers:"] + ImporterLines(doc), '\n')) == m
  {
    hide *;
    doc := WriteTable(m);
    WrittenTextParses(doc);
    assert Table(map[], doc) == map[] + m;
    assert map[] + m == m;
  }

  lemma WrittenTextParses(doc: seq<ImporterDoc>)
    requires Writable(doc)
    ensures Parsed(Join(["importers:"] + ImporterLines(doc), '\n')) == Table(map[], doc)
  {
    hide *;
    var lines := ImporterLines(doc);
    ImporterLinesFree(doc);
    ImporterLinesMatter(doc);
    HeaderStartsBlock();
    assert [] + ["importers:"] + lines + [] == ["importers:"] + lines;
    FreeText("importers:", lines);
    ParseInvertsPrint([], "importers:", lines, [], doc);
  }

  lemma FreeText(header: string, lines: seq<string>)
    requires '\n' !in header && Free(lines, '\n')
    ensures Free([header] + lines, '\n')
  {
  }

  lemma HeaderStartsBlock()
    ensures StartsBlock("importers:")
  {
    hide Trim, TrimStart;
    var line := "importers:";
    IndentedContent(0, line);
    assert seq(0, _ => ' ') + line == line;
  }

  // ---------------------------------------------------------------- overrides

  datatype OverrideState = OverrideState(inBlock: bool, out: Specs)

  function OverrideStep(st: OverrideState, line: string): OverrideState {
    if Ignorable(line) then st
    else if Indent(line) == 0 then st.(inBlock := StartsWith(line, "overrides:"))
    else if !st.inBlock || Indent(line) != 2 then st
    else
      match SplitFirst(Trim(line))
      case None => st
      case Some(kv) => if kv.value == "" then st else st.(out := st.out[kv.key := Unquote(kv.value)])
  }

  function OverrideRun(st: OverrideState, lines: seq<string>): OverrideState
    decreases |lines|
  {
    if lines == [] then st else OverrideRun(OverrideStep(st, lines[0]), lines[1..])
  }

  function ParsedOverrides(text: string): Specs {
    OverrideRun(OverrideState(false, map[]), Split(text, '\n')).out
  }

  method ParseOverrides(text: string) returns (out: Specs)
    ensures out == ParsedOverrides(text)
  {
    hide Trim, Unquote, SplitFirst, Ignorable, Indent;
    out := map[];
    var inBlock := false;
    var lines := Split(text, '\n');
    for i := 0 to |lines|
      invariant OverrideRun(OverrideState(false, map[]), lines) == OverrideRun(OverrideState(inBlock, out), lines[i..])
    {
      var line := lines[i];
      assert lines[i..][0] == line && lines[i..][1..] == lines[i + 1..];
      if Ignorable(line) { continue; }
      if Indent(line) == 0 {
        inBlock := StartsWith(line, "overrides:");
        continue;
      }
      if !inBlock || Indent(line) != 2 { continue; }
      var kv := SplitFirst(Trim(line));
      if kv.Some? && kv.value.value != "" {
        out := out[kv.value.key := Unquote(kv.value.value)];
      }
    }
  }

  predicate WritableOverrides(doc: seq<DepDoc>) {
    forall d <- doc :: Token(d.name) && ':' !in d.name && Value(d.spec) && d.spec != ""
  }

  function OverrideLines(doc: seq<DepDoc>): seq<string> {
    if doc == [] then [] else [seq(2, _ => ' ') + (doc[0].name + ": " + doc[0].spec)] + OverrideLines(doc[1..])
  }

  /** Round trip for the overrides block: between its header and the next top-level line, the written
      table is what is read; a name may not hold a colon, since the first colon ends it. */
  lemma {:induction false} OverridesRoundTrip(st: OverrideState, doc: seq<DepDoc>, tail: seq<string>)
    requires st.inBlock && WritableOverrides(doc)
    requires forall line <- tail :: Ignorable(line) || Indent(line) != 0 || !StartsWith(line, "overrides:")
    requires tail == [] || TopLevel(tail[0])
    ensures OverrideRun(st, OverrideLines(doc) + tail).out == SpecTable(st.out, doc)
    decreases |doc|
  {
    hide Trim, Ignorable, Indent, Unquote, SplitFirst, Token, Value, StartsWith;
    if doc == [] {
      assert OverrideLines(doc) + tail == tail;
      OverridesAfter(st, tail);
    } else {
      var d := doc[0];
      assert d in doc;
      KeyLine(2, d.name, d.spec);
      var line := seq(2, _ => ' ') + (d.name + ": " + d.spec);
      var rest := OverrideLines(doc[1..]) + tail;
      assert OverrideLines(doc) + tail == [line] + rest;
      assert ([line] + rest)[1..] == rest;
      OverridesRoundTrip(st.(out := st.out[Unquote(d.name) := Unquote(d.spec)]), doc[1..], tail);
    }
  }

  lemma {:induction false} OverridesAfter(st: OverrideState, tail: seq<string>)
    requires forall line <- tail :: Ignorable(line) || Indent(line) != 0 || !StartsWith(line, "overrides:")
    requires st.inBlock ==> tail == [] || TopLevel(tail[0])
    ensures OverrideRun(st, tail).out == st.out
    decreases |tail|
  {
    hide Trim, Ignorable, Indent, Unquote, SplitFirst, StartsWith;
    if tail != [] {
      assert tail[0] in tail;
      var next := OverrideStep(st, tail[0]);
      assert !next.inBlock && next.out == st.out;
      OverridesAfter(next, tail[1..]);
    }
  }

  /** Lines that parseOverrides passes over wherever they stand: blank lines, comments, other indents than 0
      and 2, and lines at 2 without a key and a value. */
  predicate OverrideInert(line: string) {
    || Ignorable(line)
    || Indent(line) !in {0, 2}
    || (Indent(line) == 2 && var kv := SplitFirst(Trim(line)); kv.None? || kv.value.value == "")
  }

  function SignificantOverrides(lines: seq<string>): seq<string> {
    if lines == [] then []
    else (if OverrideInert(lines[0]) then [] else [lines[0]]) + SignificantOverrides(lines[1..])
  }

  lemma {:induction false} InertOverridesChangeNothing(st: OverrideState, lines: seq<string>)
    ensures OverrideRun(st, lines) == OverrideRun(st, SignificantOverrides(lines))
    decreases |lines|
  {
    hide OverrideInert, OverrideStep;
    if lines != [] {
      if OverrideInert(lines[0]) {
        InertOverrideStep(st, lines[0]);
        InertOverridesChangeNothing(st, lines[1..]);
        assert SignificantOverrides(lines) == SignificantOverrides(lines[1..]);
      } else {
        InertOverridesChangeNothing(OverrideStep(st, lines[0]), lines[1..]);
        var rest := SignificantOverrides(lines[1..]);
        assert ([lines[0]] + rest)[1..] == rest;
      }
    }
  }

  lemma InertOverrideStep(st: OverrideState, line: string)
    requires OverrideInert(line)
    ensures OverrideStep(st, line) == st
  {
    hide Trim, SplitFirst, Ignorable, Indent;
  }

  lemma {:induction false} OverrideRunConcat(st: OverrideState, a: seq<string>, b: seq<string>)
    ensures OverrideRun(st, a + b) == OverrideRun(OverrideRun(st, a), b)
    decreases |a|
  {
    hide OverrideStep;
    if a == [] {
      assert a + b == b;
    } else {
      assert (a + b)[1..] == a[1..] + b;
      OverrideRunConcat(OverrideStep(st, a[0]), a[1..], b);
    }
  }

  predicate StartsOverrides(line: string) {
    !Ignorable(line) && Indent(line) == 0 && StartsWith(line, "overrides:")
  }

  lemma {:induction false} OverridePreambleRun(st: OverrideState, lines: seq<string>)
    requires !st.inBlock && forall line <- lines :: !StartsOverrides(line)
    ensures OverrideRun(st, lines) == st
    decreases |lines|
  {
    hide Trim, Ignorable, Indent, Unquote, SplitFirst, StartsWith;
    if lines != [] {
      assert lines[0] in lines;
      OverridePreambleRun(st, lines[1..]);
    }
  }

  lemma StartOverrides(st: OverrideState, start: string)
    requires StartsOverrides(start)
    ensures OverrideRun(st, [start]) == st.(inBlock := true)
  {
    hide Ignorable, Indent, StartsWith;
    assert [start][1..] == [];
  }

  /** Round trip over a whole text: whatever precedes the header, whatever follows the next top-level line
      without opening the block again, and whatever inert lines stand between, the written overrides are
      what is read. */
  lemma OverridesInvertPrint(
      preamble: seq<string>, start: string, body: seq<string>, tail: seq<string>, doc: seq<DepDoc>)
    requires WritableOverrides(doc) && SignificantOverrides(body) == OverrideLines(doc)
    requires forall line <- preamble :: !StartsOverrides(line)
    requires StartsOverrides(start)
    requires (tail == [] || TopLevel(tail[0])) && forall line <- tail :: !StartsOverrides(line)
    requires Free(preamble + [start] + body + tail, '\n')
    ensures ParsedOverrides(Join(preamble + [start] + body + tail, '\n')) == SpecTable(map[], doc)
  {
    hide OverrideStep, WritableOverrides, StartsOverrides, TopLevel, Ignorable, SignificantOverrides, OverrideLines,
      SpecTable, Split, Join, Indent;
    var lines := preamble + [start] + body + tail;
    SplitJoin(lines, '\n');
    var outside := OverrideState(false, map[]);
    OverridePreambleRun(outside, preamble);
    OverrideRunConcat(outside, preamble, [start]);
    StartOverrides(outside, start);
    var entered := outside.(inBlock := true);
    OverrideRunConcat(outside, preamble + [start], body);
    InertOverridesChangeNothing(entered, body);
    OverrideRunConcat(outside, preamble + [start] + body, tail);
    OverrideRunConcat(entered, OverrideLines(doc), tail);
    TailStartsNothing(tail);
    OverridesRoundTrip(entered, doc, tail);
  }

  lemma TailStartsNothing(tail: seq<string>)
    requires forall line <- tail :: !StartsOverrides(line)
    ensures forall line <- tail :: Ignorable(line) || Indent(line) != 0 || !StartsWith(line, "overrides:")
  {
    hide Ignorable, Indent, StartsWith;
  }

  /** The tables an overrides block can hold: no line feeds, and no colon in a name. */
  predicate PrintableOverrides(m: Specs) {
    PrintableSpecs(m) && forall n <- m :: ':' !in n
  }

  lemma QuotedOverride(n: string, spec: string)
    requires '\n' !in n && '\n' !in spec && ':' !in n
    ensures WritableOverrides([DepDoc(Spell(n), Spell(spec))])
  {
    Spelled(n);
    Spelled(spec);
    hide Unquote, Trim;
  }

  lemma {:induction false} OverrideLinesMatter(doc: seq<DepDoc>)
    requires WritableOverrides(doc)
    ensures SignificantOverrides(OverrideLines(doc)) == OverrideLines(doc) && Free(OverrideLines(doc), '\n')
  {
    hide Trim, Ignorable, Indent, Unquote, SplitFirst;
    if doc != [] {
      var d := doc[0];
      assert d in doc;
      KeyLine(2, d.name, d.spec);
      OverrideLinesMatter(doc[1..]);
      var line := seq(2, _ => ' ') + (d.name + ": " + d.spec);
      assert !OverrideInert(line);
      assert OverrideLines(doc) == [line] + OverrideLines(doc[1..]);
    }
  }

  lemma OverridesHeader()
    ensures StartsOverrides("overrides:") && '\n' !in "overrides:"
  {
    hide Trim, TrimStart;
    var line := "overrides:";
    IndentedContent(0, line);
    assert seq(0, _ => ' ') + line == line;
  }

  /** Every such table is the parse of some text. */
  lemma EveryOverrideTableRoundTrips(m: Specs) returns (doc: seq<DepDoc>)
    requires PrintableOverrides(m)
    ensures WritableOverrides(doc)
    ensures ParsedOverrides(Join(["overrides:"] + OverrideLines(doc), '\n')) == m
  {
    hide OverrideLines, SignificantOverrides, StartsOverrides, SpecTable, ParsedOverrides, Join, Spell;
    doc := WriteDeps(m);
    forall d <- doc
      ensures WritableOverrides([d])
    {
      var n :| n in m && d == DepDoc(Spell(n), Spell(m[n]));
      QuotedOverride(n, m[n]);
    }
    assert WritableOverrides(doc) by { OneByOne(doc); }
    hide PrintableOverrides, WritableOverrides, WritableDeps;
    OverrideLinesMatter(doc);
    OverridesHeader();
    var lines := OverrideLines(doc);
    assert [] + ["overrides:"] + lines + [] == ["overrides:"] + lines;
    OverridesInvertPrint([], "overrides:", lines, [], doc);
    assert map[] + m == m;
  }

  lemma OneByOne(doc: seq<DepDoc>)
    requires forall d <- doc :: WritableOverrides([d])
    ensures WritableOverrides(doc)
  {
    hide Token, Value;
    forall d <- doc
      ensures Token(d.name) && ':' !in d.name && Value(d.spec) && d.spec != ""
    {
      assert d in [d];
    }
  }
}
