/** The text side of conf.h: what the scanner and the line loop compute. */
module ConfSpec {

  const NUL: char := '\0'

  /** isspace in the C locale. */
  predicate IsSpace(c: char) {
    c == ' ' || c == '\t' || c == '\n' || c == '\r' || c == '\U{0B}' || c == '\U{0C}'
  }

  /** The character at p of a C string; a read past the terminator counts as another one. */
  function At(s: string, p: nat): char { if p < |s| then s[p] else NUL }

  function ToLower(c: char): char {
    if 'A' <= c <= 'Z' then (c as int + 32) as char else c
  }

  function Lower(s: string): (r: string)
    ensures |r| == |s|
  {
    if s == "" then "" else [ToLower(s[0])] + Lower(s[1..])
  }

  function MakeKey(section: string, name: string): string {
    Lower(section + "." + name)
  }

  // ----- scanning -----

  function SkipFrom(s: string, p: nat): (r: nat)
    ensures p <= r
    decreases |s| - p
  {
    if p < |s| && IsSpace(s[p]) then SkipFrom(s, p + 1) else p
  }

  /** The first c at or after p, or the end. */
  function TillFrom(s: string, p: nat, c: char): (r: nat)
    ensures p <= r && (p <= |s| ==> r <= |s|)
    decreases |s| - p
  {
    if p < |s| && s[p] != c && s[p] != NUL then TillFrom(s, p + 1, c) else p
  }

  predicate EndsValue(c: char) { c == NUL || c == '#' || c == ';' || IsSpace(c) }

  function EndFrom(s: string, p: nat): (r: nat)
    ensures p <= r && (p <= |s| ==> r <= |s|)
    decreases |s| - p
  {
    if p < |s| && !EndsValue(s[p]) then EndFrom(s, p + 1) else p
  }

  function RStrip(s: string): string
    decreases |s|
  {
    if s != "" && IsSpace(s[|s| - 1]) then RStrip(s[..|s| - 1]) else s
  }

  /** p and err of a LineScanner. */
  datatype Scan = Scan(p: nat, err: bool)

  function Skipped(line: string, sc: Scan): Scan {
    if sc.err then sc else sc.(p := SkipFrom(line, sc.p))
  }

  function Matched(line: string, sc: Scan, c: char): Scan {
    var q := Skipped(line, sc).p;
    Scan(q + 1, At(line, q) != c)
  }

  /** consumeTill: the scanner after it and the text before c. */
  function Till(line: string, sc: Scan, c: char): (Scan, string) {
    var q := Skipped(line, sc).p;
    var e := if sc.err then q else TillFrom(line, q, c);
    if At(line, e) != c then (Scan(q, true), "")
    else (Scan(e, sc.err), if e <= |line| then RStrip(line[q..e]) else "")
  }

  /** consumeTillEnd: the value token. */
  function TillEnd(line: string, sc: Scan): (Scan, string) {
    var q := Skipped(line, sc).p;
    var e := if sc.err then q else EndFrom(line, q);
    (Scan(e, sc.err), if e <= |line| then RStrip(line[q..e]) else "")
  }

  // ----- the line loop -----

  type Values = map<string, seq<string>>

  datatype Parser = Parser(section: string, key: string, values: Values)

  function Push(values: Values, key: string, value: string): Values {
    values[key := (if key in values then values[key] else []) + [value]]
  }

  /** One line: the parser after it, and whether it is in error. */
  function ParseLine(ps: Parser, line: string): (Parser, bool) {
    var ln := Skipped(line, Scan(0, false));
    var c := At(line, ln.p);
    if c == ';' || c == '#' || c == NUL then (ps, false)
    else if c == '[' then
      var (ln1, section) := Till(line, ln.(p := ln.p + 1), ']');
      (Parser(section, "", ps.values), Matched(line, ln1, ']').err)
    else if IsSpace(At(line, 0)) then
      if ps.key == "" then (ps, true)
      else (ps.(values := Push(ps.values, MakeKey(ps.section, ps.key), Till(line, ln, NUL).1)), false)
    else
      var (ln1, key1) := Till(line, ln, '=');
      if At(line, Skipped(line, ln1).p) == '=' then
        var value := TillEnd(line, Scan(Skipped(line, ln1).p + 1, ln1.err)).1;
        (Parser(ps.section, key1, Push(ps.values, MakeKey(ps.section, key1), value)), false)
      else
        var (ln2, key2) := Till(line, ln, ':');
        var ln3 := Matched(line, ln2, ':');
        var value := TillEnd(line, ln3.(p := ln3.p + 1)).1;
        (Parser(ps.section, key2, Push(ps.values, MakeKey(ps.section, key2), value)), ln3.err)
  }

  /** The parser after the lines, and the number of the offending line or 0. */
  function ParseLines(ps: Parser, lines: seq<string>, done: nat): (Parser, nat)
    decreases |lines|
  {
    if lines == [] then (ps, 0)
    else
      var (next, err) := ParseLine(ps, lines[0]);
      if err then (next, done + 1) else ParseLines(next, lines[1..], done + 1)
  }

  const MAXSIZE: nat := 1024

  /** How much one fgets takes: through the newline, but fewer than MAXSIZE characters. */
  function FgetsLength(file: string, n: nat): (r: nat)
    requires n <= |file|
    ensures n <= r <= |file|
    ensures n < |file| && n < MAXSIZE - 1 ==> n < r
    decreases |file| - n
  {
    if n == |file| || n >= MAXSIZE - 1 then n
    else if file[n] == '\n' then n + 1
    else FgetsLength(file, n + 1)
  }

  /** The successive results of fgets on a file. */
  function FgetsLines(file: string): seq<string>
    decreases |file|
  {
    if file == "" then [] else [file[..FgetsLength(file, 0)]] + FgetsLines(file[FgetsLength(file, 0)..])
  }
}
