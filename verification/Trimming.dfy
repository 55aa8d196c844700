/** What String.trim leaves. */
module Trimming {
  import opened Text

  /** A string without the white space at its ends. */
  ghost predicate Bares(line: string, t: string) {
    && (t == "" || (!IsSpace(t[0]) && !IsSpace(t[|t| - 1])))
    && exists before: string, after: string ::
         line == before + t + after && (forall c <- before :: IsSpace(c)) && (forall c <- after :: IsSpace(c))
  }

  lemma {:induction false} StartTrimmed(before: string, v: string)
    requires (forall c <- before :: IsSpace(c)) && v != "" && !IsSpace(v[0])
    ensures TrimStart(before + v) == v
    decreases |before|
  {
    hide IsSpace;
    if before == "" {
      assert before + v == v;
    } else {
      assert (before + v)[0] == before[0] && before[0] in before && (before + v)[1..] == before[1..] + v;
      StartTrimmed(before[1..], v);
    }
  }

  lemma {:induction false} EndTrimmed(v: string, after: string)
    requires (forall c <- after :: IsSpace(c)) && v != "" && !IsSpace(v[|v| - 1])
    ensures TrimEnd(v + after) == v
    decreases |after|
  {
    hide IsSpace;
    if after == "" {
      assert v + after == v;
    } else {
      var n := |after| - 1;
      assert (v + after)[|v + after| - 1] == after[n] && after[n] in after && (v + after)[..|v + after| - 1] == v + after[..n];
      EndTrimmed(v, after[..n]);
    }
  }

  lemma TrimmedOf(before: string, v: string, after: string)
    requires v != "" && !IsSpace(v[0]) && !IsSpace(v[|v| - 1])
    requires (forall c <- before :: IsSpace(c)) && (forall c <- after :: IsSpace(c))
    ensures Trim(before + v + after) == v
  {
    hide IsSpace;
    StartTrimmed(before, v + after);
    EndTrimmed(v, after);
    assert before + v + after == before + (v + after);
  }

  lemma {:induction false} StartBared(s: string) returns (before: string)
    ensures s == before + TrimStart(s) && forall c <- before :: IsSpace(c)
  {
    hide IsSpace;
    if s != "" && IsSpace(s[0]) {
      var rest := StartBared(s[1..]);
      before := [s[0]] + rest;
      assert s == [s[0]] + s[1..];
    } else {
      before := "";
    }
  }

  lemma {:induction false} EndBared(s: string) returns (after: string)
    ensures s == TrimEnd(s) + after && forall c <- after :: IsSpace(c)
    ensures TrimEnd(s) <= s
  {
    hide IsSpace;
    if s != "" && IsSpace(s[|s| - 1]) {
      var rest := EndBared(s[..|s| - 1]);
      after := rest + [s[|s| - 1]];
      assert s == s[..|s| - 1] + [s[|s| - 1]];
    } else {
      after := "";
    }
  }

  lemma TrimBares(line: string)
    ensures Bares(line, Trim(line))
  {
    hide IsSpace, TrimStart, TrimEnd;
    var before := StartBared(line);
    var after := EndBared(TrimStart(line));
    var t := Trim(line);
    assert line == before + t + after;
    assert t != "" ==> t[0] == TrimStart(line)[0];
  }

  lemma BaresIsTrim(line: string, t: string)
    requires Bares(line, t)
    ensures t == Trim(line)
  {
    hide IsSpace;
    var before, after :| line == before + t + after && (forall c <- before :: IsSpace(c)) && (forall c <- after :: IsSpace(c));
    if t != "" {
      TrimmedOf(before, t, after);
    } else {
      BlankTrims(line);
    }
  }

  lemma {:induction false} BlankTrims(line: string)
    requires forall c <- line :: IsSpace(c)
    ensures TrimStart(line) == ""
  {
    hide IsSpace;
    if line != "" { BlankTrims(line[1..]); }
  }

  /** Nothing is left exactly of white space. */
  lemma BlankIff(line: string)
    ensures TrimStart(line) == "" <==> forall c <- line :: IsSpace(c)
    ensures Trim(line) == "" <==> forall c <- line :: IsSpace(c)
  {
    hide IsSpace, TrimEnd;
    var before := StartBared(line);
    var text := TrimStart(line);
    var after := EndBared(text);
    if text == "" {
      assert line == before;
      assert after == "" && Trim(line) == "";
    } else {
      assert text[0] in line && text[0] in text;
    }
  }
}
