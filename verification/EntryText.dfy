/** Which lines of a stored log are its entries (did-hosting-common/src/did_ops.rs:318-325,
    873-879). */
module EntryText {
  import opened LogText

  predicate Blank(c: char) {
    c in {' ', '\t', '\n', '\r'}
  }

  predicate AllBlank(s: string) {
    forall i :: 0 <= i < |s| ==> Blank(s[i])
  }

  /** What is left of a line when the blanks at both ends are gone. */
  predicate Core(core: string, before: string, after: string, s: string) {
    && s == before + core + after && AllBlank(before) && AllBlank(after)
    && (core != "" ==> !Blank(core[0]) && !Blank(core[|core| - 1]))
  }

  lemma {:induction false} LeftCore(s: string) returns (before: string)
    ensures s == before + TrimLeft(s) && AllBlank(before)
    ensures TrimLeft(s) != "" ==> !Blank(TrimLeft(s)[0])
  {
    before := "";
    if s != [] && Space(s[0]) {
      var rest := LeftCore(s[1..]);
      before := [s[0]] + rest;
      assert s == [s[0]] + s[1..];
    }
  }

  lemma {:induction false} RightCore(s: string) returns (after: string)
    ensures s == TrimRight(s) + after && AllBlank(after)
    ensures TrimRight(s) != "" ==> !Blank(TrimRight(s)[|TrimRight(s)| - 1]) && TrimRight(s)[0] == s[0]
  {
    after := "";
    if s != [] && Space(s[|s| - 1]) {
      var rest := RightCore(s[..|s| - 1]);
      after := rest + [s[|s| - 1]];
      assert s == s[..|s| - 1] + [s[|s| - 1]];
    }
  }

  lemma TrimIsCore(s: string) returns (before: string, after: string)
    ensures Core(Trim(s), before, after, s)
  {
    before := LeftCore(s);
    after := RightCore(TrimLeft(s));
    assert s == before + (Trim(s) + after);
  }

  /** A line is one entry, its core, unless it is all blank. */
  lemma OneLineMeans(line: string) returns (core: string, before: string, after: string)
    requires '\n' !in line
    ensures Core(core, before, after, line)
    ensures EntryLines(line) == if core == "" then [] else [core]
  {
    before, after := TrimIsCore(line);
    core := Trim(line);
    NoBreak(line);
    assert [line][1..] == [];
    assert EntryLines(line) == (if core == [] then [] else [core]) + TrimmedNonBlank([]);
  }

  lemma {:induction false} NoBreak(line: string)
    requires '\n' !in line
    ensures Split(line) == [line]
  {
    if line != [] {
      NoBreak(line[1..]);
      assert line == [line[0]] + line[1..];
    }
  }

  lemma {:induction false} SplitInTwo(a: string, b: string)
    ensures Split(a + "\n" + b) == Split(a) + Split(b)
  {
    if a == [] {
      assert a + "\n" + b == "\n" + b;
      assert ("\n" + b)[1..] == b;
    } else {
      assert (a + "\n" + b)[1..] == a[1..] + "\n" + b;
      SplitInTwo(a[1..], b);
    }
  }

  lemma {:induction false} TrimmedInTwo(a: seq<string>, b: seq<string>)
    ensures TrimmedNonBlank(a + b) == TrimmedNonBlank(a) + TrimmedNonBlank(b)
  {
    if a == [] {
      assert a + b == b;
    } else {
      assert (a + b)[1..] == a[1..] + b;
      TrimmedInTwo(a[1..], b);
    }
  }

  /** Line by line: the entries before a line break, then those after it. */
  lemma LinesMean(a: string, b: string)
    ensures EntryLines(a + "\n" + b) == EntryLines(a) + EntryLines(b)
  {
    SplitInTwo(a, b);
    TrimmedInTwo(Split(a), Split(b));
  }
}
