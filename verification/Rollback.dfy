/** Cutting a stored log back to its first entries, as text
    (did-hosting-control/src/did_ops.rs:1994-2025). */
module Rollback {
  import opened LogText

  /** A line's carriage return goes with its newline; the last line has no newline. */
  function WithoutReturns(lines: seq<string>): seq<string> {
    if |lines| <= 1 then lines
    else [WithoutReturn(lines[0])] + WithoutReturns(lines[1..])
  }

  function WithoutReturn(line: string): string {
    if line != [] && line[|line| - 1] == '\r' then line[..|line| - 1] else line
  }

  function NonBlank(lines: seq<string>): seq<string> {
    if lines == [] then []
    else (if Trim(lines[0]) == [] then [] else [lines[0]]) + NonBlank(lines[1..])
  }

  /** The lines that are entries, untrimmed. */
  function RawLines(content: string): seq<string> {
    NonBlank(WithoutReturns(Split(content)))
  }

  function Join(lines: seq<string>): string
    requires lines != []
  {
    if |lines| == 1 then lines[0] else lines[0] + "\n" + Join(lines[1..])
  }

  // ---------------------------------------------------------------------
  // Trimming
  // ---------------------------------------------------------------------

  lemma {:induction false} TrimLeftOfAppend(s: string, c: char)
    requires Space(c)
    ensures TrimLeft(s + [c]) == if TrimLeft(s) == [] then [] else TrimLeft(s) + [c]
  {
    if s == [] {
      assert s + [c] == [c];
    } else if Space(s[0]) {
      assert (s + [c])[1..] == s[1..] + [c];
      TrimLeftOfAppend(s[1..], c);
    }
  }

  lemma TrimIgnoresReturn(line: string)
    ensures Trim(WithoutReturn(line)) == Trim(line)
  {
    if line != [] && line[|line| - 1] == '\r' {
      var s := line[..|line| - 1];
      assert line == s + ['\r'];
      TrimLeftOfAppend(s, '\r');
      assert (TrimLeft(s) + ['\r'])[..|TrimLeft(s)|] == TrimLeft(s);
    }
  }

  lemma {:induction false} TrimmedIgnoresReturns(lines: seq<string>)
    ensures TrimmedNonBlank(WithoutReturns(lines)) == TrimmedNonBlank(lines)
  {
    if |lines| > 1 {
      TrimIgnoresReturn(lines[0]);
      TrimmedIgnoresReturns(lines[1..]);
      assert WithoutReturns(lines)[1..] == WithoutReturns(lines[1..]);
    }
  }

  lemma {:induction false} TrimmedOfNonBlank(lines: seq<string>)
    ensures TrimmedNonBlank(NonBlank(lines)) == TrimmedNonBlank(lines)
    ensures |NonBlank(lines)| == |TrimmedNonBlank(lines)|
    ensures forall i :: 0 <= i < |NonBlank(lines)| ==> Trim(NonBlank(lines)[i]) != []
  {
    if lines != [] {
      var kept := NonBlank(lines[1..]);
      TrimmedOfNonBlank(lines[1..]);
      if Trim(lines[0]) != [] {
        assert NonBlank(lines) == [lines[0]] + kept && ([lines[0]] + kept)[1..] == kept;
      } else {
        assert NonBlank(lines) == kept;
      }
    }
  }

  lemma {:induction false} TrimmedOfPrefix(lines: seq<string>, keep: nat)
    requires keep <= |lines| && forall i :: 0 <= i < |lines| ==> Trim(lines[i]) != []
    ensures |TrimmedNonBlank(lines)| == |lines|
    ensures TrimmedNonBlank(lines[..keep]) == TrimmedNonBlank(lines)[..keep]
  {
    if lines != [] {
      TrimmedOfPrefix(lines[1..], if keep > 0 then keep - 1 else 0);
      if keep > 0 {
        assert lines[..keep][1..] == lines[1..][..keep - 1];
      }
    }
  }

  // ---------------------------------------------------------------------
  // Splitting what was joined
  // ---------------------------------------------------------------------

  predicate OneLine(s: string) {
    '\n' !in s
  }

  predicate OneLiners(lines: seq<string>) {
    forall i :: 0 <= i < |lines| ==> OneLine(lines[i])
  }

  lemma {:induction false} SplitLine(line: string, rest: string)
    requires OneLine(line)
    ensures Split(line) == [line]
    ensures Split(line + "\n" + rest) == [line] + Split(rest)
  {
    if line == [] {
      assert line + "\n" + rest == "\n" + rest;
      assert ("\n" + rest)[1..] == rest;
      assert line == [];
    } else {
      SplitLine(line[1..], rest);
      assert (line + "\n" + rest)[1..] == line[1..] + "\n" + rest;
      assert line == [line[0]] + line[1..];
    }
  }

  lemma {:induction false} SplitOfJoin(lines: seq<string>)
    requires lines != [] && OneLiners(lines)
    ensures Split(Join(lines)) == lines
  {
    if |lines| == 1 {
      SplitLine(lines[0], []);
    } else {
      SplitOfJoin(lines[1..]);
      SplitLine(lines[0], Join(lines[1..]));
    }
  }

  lemma {:induction false} SplitIsOneLiners(s: string)
    ensures OneLiners(Split(s))
  {
    if s != [] {
      SplitIsOneLiners(s[1..]);
    }
  }

  lemma {:induction false} RawIsOneLiners(lines: seq<string>)
    requires OneLiners(lines)
    ensures OneLiners(WithoutReturns(lines))
  {
    if |lines| > 1 {
      RawIsOneLiners(lines[1..]);
    }
  }

  lemma {:induction false} NonBlankIsOneLiners(lines: seq<string>)
    requires OneLiners(lines)
    ensures OneLiners(NonBlank(lines))
  {
    if lines != [] {
      NonBlankIsOneLiners(lines[1..]);
    }
  }

  // ---------------------------------------------------------------------
  // Size
  // ---------------------------------------------------------------------

  /** Characters, counting one for the end of each line. */
  function Weight(lines: seq<string>): nat {
    if lines == [] then 0 else |lines[0]| + 1 + Weight(lines[1..])
  }

  lemma {:induction false} WeightOfJoin(lines: seq<string>)
    requires lines != []
    ensures |Join(lines)| + 1 == Weight(lines)
  {
    if |lines| > 1 {
      WeightOfJoin(lines[1..]);
    }
  }

  lemma {:induction false} WeightOfSplit(s: string)
    ensures Weight(Split(s)) == |s| + 1
  {
    if s != [] {
      WeightOfSplit(s[1..]);
    }
  }

  lemma {:induction false} LighterRaw(lines: seq<string>)
    ensures Weight(WithoutReturns(lines)) <= Weight(lines)
  {
    if |lines| > 1 {
      LighterRaw(lines[1..]);
      assert WithoutReturns(lines)[1..] == WithoutReturns(lines[1..]);
    }
  }

  lemma {:induction false} LighterNonBlank(lines: seq<string>)
    ensures Weight(NonBlank(lines)) <= Weight(lines)
  {
    if lines != [] {
      var kept := NonBlank(lines[1..]);
      LighterNonBlank(lines[1..]);
      if Trim(lines[0]) != [] {
        assert NonBlank(lines) == [lines[0]] + kept && ([lines[0]] + kept)[1..] == kept;
      } else {
        assert NonBlank(lines) == kept;
      }
    }
  }

  lemma {:induction false} LighterPrefix(lines: seq<string>, keep: nat)
    requires keep <= |lines|
    ensures Weight(lines[..keep]) <= Weight(lines)
  {
    if keep > 0 {
      LighterPrefix(lines[1..], keep - 1);
      assert lines[..keep][1..] == lines[1..][..keep - 1];
    }
  }

  // ---------------------------------------------------------------------
  // What a truncation leaves
  // ---------------------------------------------------------------------

  /** The log cut to its first `keep` lines reads as its first `keep` entries, whatever
      blank lines, indentation and line endings it held, and is no longer than it was. */
  lemma TruncationKeepsEntries(content: string, keep: nat)
    requires 0 < keep <= |RawLines(content)|
    ensures |RawLines(content)| == |EntryLines(content)|
    ensures EntryLines(Join(RawLines(content)[..keep])) == EntryLines(content)[..keep]
    ensures |Join(RawLines(content)[..keep])| <= |content|
  {
    var split := Split(content);
    var unterminated := WithoutReturns(split);
    var raw := RawLines(content);
    SplitIsOneLiners(content);
    RawIsOneLiners(split);
    NonBlankIsOneLiners(unterminated);
    TrimmedIgnoresReturns(split);
    TrimmedOfNonBlank(unterminated);
    TrimmedOfPrefix(raw, keep);
    SplitOfJoin(raw[..keep]);
    WeightOfSplit(content);
    LighterRaw(split);
    LighterNonBlank(unterminated);
    LighterPrefix(raw, keep);
    WeightOfJoin(raw[..keep]);
  }
}
