/** What the tokens of a lockfile stand for, and its round trip in terms of the names as they are written. */
module LockfileNames {
  import opened Wrappers
  import opened Text
  import opened LockfileParser
  import opened Trimming

  /** A token without quotes at both ends stands for itself. */
  lemma BareStandsForItself(v: string)
    requires Value(v)
    requires v == "" || (v[0] != '\'' && v[0] != '"') || |v| == 1 || v[|v| - 1] != v[0]
    ensures Unquote(v) == v
  {
    hide Unquote, Value;
    TokenStandsFor(v);
  }

  /** In either kind of quotes, anything on one line stands for itself. */
  lemma QuotedStandsForInside(v: string, q: char)
    requires q == '\'' || q == '"'
    ensures Unquote([q] + v + [q]) == v
  {
    var t := [q] + v + [q];
    hide IsSpace;
    QuoteIsNoSpace();
    assert TrimStart(t) == t && TrimEnd(t) == t;
    assert t[1..|t| - 1] == v;
  }

  /** Spaces around a token do not belong to it. */
  lemma SpacesDoNotMatter(before: string, v: string, after: string)
    requires v != "" && !IsSpace(v[0]) && !IsSpace(v[|v| - 1])
    requires (forall c <- before :: IsSpace(c)) && (forall c <- after :: IsSpace(c))
    ensures Unquote(before + v + after) == Unquote(v)
  {
    hide IsSpace;
    TrimmedOf(before, v, after);
    TrimmedOf("", v, "");
    assert "" + v + "" == v;
  }

  /** How the three groups are called. */
  lemma GroupHeadings()
    ensures GroupName(Dependencies) == "dependencies"
    ensures GroupName(DevDependencies) == "devDependencies"
    ensures GroupName(OptionalDependencies) == "optionalDependencies"
  {
  }

  // ---------------------------------------------------------------- lines that do not matter

  /** A line is passed over in either block when it is blank or its first mark is a `#`. */
  lemma IgnorableMeans(line: string)
    ensures Ignorable(line) <==>
            || (forall c <- line :: IsSpace(c))
            || exists before: string, rest: string :: line == before + "#" + rest && forall c <- before :: IsSpace(c)
  {
    hide IsSpace;
    if forall c <- line :: IsSpace(c) { BlankIff(line); } else { StartIsFirst(line); }
  }

  lemma HashIsNoSpace()
    ensures !IsSpace('#')
  {
  }

  /** The first character that is no space decides. */
  lemma StartIsFirst(line: string)
    requires !forall c <- line :: IsSpace(c)
    ensures Ignorable(line) <==>
            exists before: string, rest: string :: line == before + "#" + rest && forall c <- before :: IsSpace(c)
  {
    hide IsSpace, TrimStart, TrimEnd;
    HashIsNoSpace();
    BlankIff(line);
    var before := StartBared(line);
    var text := TrimStart(line);
    if StartsWith(text, "#") {
      assert text == "#" + text[1..];
      assert line == before + "#" + text[1..];
    }
    forall b: string, rest: string | line == b + "#" + rest && forall c <- b :: IsSpace(c)
      ensures StartsWith(text, "#")
    {
      StartTrimmed(b, "#" + rest);
      assert line == b + ("#" + rest);
    }
  }

  /** What is indented by any other number of spaces is passed over: in the importers by any but 0, 2, 4, 6 and
      8, in the overrides by any but 0 and 2. */
  lemma OddIndents(before: string, text: string)
    requires text != "" && !IsSpace(text[0]) && forall c <- before :: IsSpace(c)
    ensures Indent(before + text) == |before|
    ensures |before| !in {0, 2, 4, 6, 8} ==> Inert(before + text)
    ensures |before| !in {0, 2} ==> OverrideInert(before + text)
  {
    hide IsSpace, Ignorable, LockfileParser.SplitFirst, Trim;
    StartTrimmed(before, text);
  }

  /** At the depth of a specifier every other key is passed over. */
  lemma OtherKeys(key: string, value: string)
    requires Token(key) && Bare(key) && ':' !in key && key != "specifier" && Value(value)
    ensures Inert(seq(8, _ => ' ') + (key + ": " + value))
  {
    hide IsSpace, Ignorable, LockfileParser.SplitFirst, Trim, Indent, Unquote;
    KeyLine(8, key, value);
    BareStandsForItself(key);
  }

  // ---------------------------------------------------------------- documents with bare names

  predicate BareDeps(deps: seq<DepDoc>) {
    forall d <- deps :: Bare(d.name) && (d.spec == "" || Bare(d.spec))
  }

  predicate BareDoc(doc: seq<ImporterDoc>) {
    forall d <- doc :: Bare(d.path) && forall g <- d.groups :: BareDeps(g.deps)
  }

  /** The table as it is written: the last specifier of a name in a group of an importer. */
  function WrittenDeps(specs: Specs, deps: seq<DepDoc>): Specs
    decreases |deps|
  {
    if deps == [] then specs else WrittenDeps(specs[deps[0].name := deps[0].spec], deps[1..])
  }

  function WrittenGroups(specs: ImporterSpecs, groups: seq<GroupDoc>): ImporterSpecs
    decreases |groups|
  {
    if groups == [] then specs
    else
      var g := groups[0];
      WrittenGroups(match g.group
                    case Dependencies => specs.(dependencies := WrittenDeps(specs.dependencies, g.deps))
                    case DevDependencies => specs.(devDependencies := WrittenDeps(specs.devDependencies, g.deps))
                    case OptionalDependencies => specs.(optionalDependencies := WrittenDeps(specs.optionalDependencies, g.deps)),
                    groups[1..])
  }

  function WrittenTable(out: Importers, doc: seq<ImporterDoc>): Importers
    decreases |doc|
  {
    if doc == [] then out
    else
      var d := doc[0];
      var specs := if d.path in out then out[d.path] else ImporterSpecs(map[], map[], map[]);
      WrittenTable(out[d.path := WrittenGroups(specs, d.groups)], doc[1..])
  }

  lemma BareIsItself(v: string)
    requires Bare(v) && '\n' !in v
    ensures Unquote(v) == v
  {
    BareStandsForItself(v);
  }

  lemma {:induction false} DepsAsWritten(specs: Specs, deps: seq<DepDoc>)
    requires BareDeps(deps) && WritableDeps(deps)
    ensures SpecTable(specs, deps) == WrittenDeps(specs, deps)
    decreases |deps|
  {
    hide Unquote, Bare, Token, Value;
    if deps != [] {
      var d := deps[0];
      assert d in deps;
      DepAsWritten(d);
      DepsAsWritten(specs[d.name := d.spec], deps[1..]);
    }
  }

  lemma DepAsWritten(d: DepDoc)
    requires Bare(d.name) && (d.spec == "" || Bare(d.spec)) && Token(d.name) && Value(d.spec)
    ensures Unquote(d.name) == d.name && Unquote(d.spec) == d.spec
  {
    hide Unquote;
    BareStandsForItself(d.name);
    BareStandsForItself(d.spec);
  }

  lemma {:induction false} GroupsAsWritten(specs: ImporterSpecs, groups: seq<GroupDoc>)
    requires (forall g <- groups :: BareDeps(g.deps)) && WritableGroups(groups)
    ensures GroupSpecs(specs, groups) == WrittenGroups(specs, groups)
    decreases |groups|
  {
    hide BareDeps, WritableDeps, SpecTable, WrittenDeps;
    if groups != [] {
      var g := groups[0];
      assert g in groups;
      DepsAsWritten(specs.In(g.group), g.deps);
      GroupsAsWritten(specs.With(g.group, SpecTable(specs.In(g.group), g.deps)), groups[1..]);
    }
  }

  lemma {:induction false} TableAsWritten(out: Importers, doc: seq<ImporterDoc>)
    requires BareDoc(doc) && Writable(doc)
    ensures Table(out, doc) == WrittenTable(out, doc)
    decreases |doc|
  {
    hide Unquote, Bare, BareDeps, Token, GroupTable, GroupSpecs, WrittenGroups, WritableGroups;
    if doc != [] {
      var d := doc[0];
      assert d in doc;
      PathAsWritten(d.path);
      var grown := Open(out, d.path);
      GroupTableIsGroupSpecs(grown, d.path, d.groups);
      GroupsAsWritten(grown[d.path], d.groups);
      var next := out[d.path := WrittenGroups(grown[d.path], d.groups)];
      assert grown[d.path := WrittenGroups(grown[d.path], d.groups)] == next;
      TableAsWritten(next, doc[1..]);
    }
  }

  lemma PathAsWritten(path: string)
    requires Bare(path) && Token(path)
    ensures Unquote(path) == path
  {
    hide Unquote;
    BareStandsForItself(path);
  }

  /** A lockfile whose names and specifiers are written without quotes, as pnpm writes all but scoped names,
      parses to exactly the table it shows. */
  lemma BareTextParses(
      preamble: seq<string>, start: string, body: seq<string>, tail: seq<string>, doc: seq<ImporterDoc>)
    requires BareDoc(doc) && Writable(doc) && Significant(body) == ImporterLines(doc)
    requires forall line <- preamble :: !StartsBlock(line)
    requires StartsBlock(start)
    requires tail == [] || TopLevel(tail[0])
    requires Free(preamble + [start] + body + tail, '\n')
    ensures Parsed(Join(preamble + [start] + body + tail, '\n')) == WrittenTable(map[], doc)
  {
    hide *;
    ParseInvertsPrint(preamble, start, body, tail, doc);
    TableAsWritten(map[], doc);
  }
}
