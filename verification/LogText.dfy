/** A stored `did.jsonl` as text: lines, blank lines skipped, the rest trimmed
    (did-hosting-common/src/did_ops.rs:318-325, 873-879). */
module LogText {

  predicate Space(c: char) {
    c == ' ' || c == '\t' || c == '\n' || c == '\r'
  }

  function Split(s: string): (r: seq<string>)
    ensures r != []
  {
    if s == [] then [[]]
    else if s[0] == '\n' then [[]] + Split(s[1..])
    else var r := Split(s[1..]); [[s[0]] + r[0]] + r[1..]
  }

  function TrimLeft(s: string): string {
    if s != [] && Space(s[0]) then TrimLeft(s[1..]) else s
  }

  function TrimRight(s: string): string {
    if s != [] && Space(s[|s| - 1]) then TrimRight(s[..|s| - 1]) else s
  }

  function Trim(s: string): string {
    TrimRight(TrimLeft(s))
  }

  function TrimmedNonBlank(lines: seq<string>): seq<string> {
    if lines == [] then []
    else (if Trim(lines[0]) == [] then [] else [Trim(lines[0])]) + TrimmedNonBlank(lines[1..])
  }

  /** The entries of a log, as lines. */
  function EntryLines(content: string): seq<string> {
    TrimmedNonBlank(Split(content))
  }
}
