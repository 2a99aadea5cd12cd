/** Which lines a configuration file may not contain, what parse reports about them, and the
    `:` form of a value. */
module ConfLines {
  import opened ConfSpec
  import opened ConfRoundTrip

  // ----- errors -----

  /** c occurs at or after p, in front of any terminator. */
  ghost predicate Has(s: string, p: nat, c: char) {
    exists i :: p <= i < |s| && s[i] == c && forall j :: p <= j < i ==> s[j] != NUL
  }

  lemma {:induction false} TillHas(s: string, p: nat, c: char)
    requires c != NUL
    ensures At(s, TillFrom(s, p, c)) == c <==> Has(s, p, c)
    decreases |s| - p
  {
    if p < |s| && s[p] != c && s[p] != NUL {
      TillHas(s, p + 1, c);
      if Has(s, p + 1, c) {
        var i :| p + 1 <= i < |s| && s[i] == c && forall j :: p + 1 <= j < i ==> s[j] != NUL;
        assert forall j :: p <= j < i ==> s[j] != NUL;
      }
    }
  }

  lemma {:induction false} SkipHas(s: string, p: nat, c: char)
    requires c != NUL && !IsSpace(c)
    ensures Has(s, SkipFrom(s, p), c) <==> Has(s, p, c)
    decreases |s| - p
  {
    if p < |s| && IsSpace(s[p]) {
      SkipHas(s, p + 1, c);
      if Has(s, p + 1, c) {
        var i :| p + 1 <= i < |s| && s[i] == c && forall j :: p + 1 <= j < i ==> s[j] != NUL;
        assert forall j :: p <= j < i ==> s[j] != NUL;
      }
    }
  }

  lemma {:induction false} SkipStops(s: string, p: nat)
    ensures !IsSpace(At(s, SkipFrom(s, p))) && SkipFrom(s, SkipFrom(s, p)) == SkipFrom(s, p)
    decreases |s| - p
  {
    if p < |s| && IsSpace(s[p]) {
      SkipStops(s, p + 1);
    }
  }

  /** consumeTill from a scanner without error, and the match or test that follows it. */
  lemma TillThenMatch(s: string, p: nat, c: char)
    requires c != NUL && !IsSpace(c)
    ensures var ln := Till(s, Scan(p, false), c).0;
            && (ln.err <==> !Has(s, p, c))
            && (Matched(s, ln, c).err <==> !Has(s, p, c))
            && (At(s, Skipped(s, ln).p) == c <==> Has(s, p, c))
  {
    var q := SkipFrom(s, p);
    SkipHas(s, p, c);
    TillHas(s, q, c);
    assert q < |s| && s[q] == c ==> Has(s, q, c);
  }

  /** A section without ']', a continuation under no key, or text with neither '=' nor ':'. */
  ghost predicate Faulty(ps: Parser, line: string) {
    var p := SkipFrom(line, 0);
    var c := At(line, p);
    if c == ';' || c == '#' || c == NUL then false
    else if c == '[' then !Has(line, p + 1, ']')
    else if p > 0 then ps.key == ""
    else !Has(line, 0, '=') && !Has(line, 0, ':')
  }

  lemma FaultyExactly(ps: Parser, line: string)
    ensures ParseLine(ps, line).1 <==> Faulty(ps, line)
  {
    var p := SkipFrom(line, 0);
    SkipStops(line, 0);
    TillThenMatch(line, p + 1, ']');
    TillThenMatch(line, p, '=');
    TillThenMatch(line, p, ':');
    hide Has, Till, Matched, TillEnd, Push, MakeKey;
  }

  /** The parser after the lines, errors or not. */
  function Folded(ps: Parser, lines: seq<string>): Parser
    decreases |lines|
  {
    if lines == [] then ps else Folded(ParseLine(ps, lines[0]).0, lines[1..])
  }

  /** The i-th line is in error where it stands. */
  ghost predicate FaultyAt(ps: Parser, lines: seq<string>, i: nat) {
    i < |lines| && Faulty(Folded(ps, lines[..i]), lines[i])
  }

  lemma FaultyShift(ps: Parser, lines: seq<string>)
    requires lines != []
    ensures forall i: nat :: FaultyAt(ParseLine(ps, lines[0]).0, lines[1..], i) <==> FaultyAt(ps, lines, i + 1)
    ensures forall i: nat :: i < |lines| ==>
              Folded(ParseLine(ps, lines[0]).0, lines[1..][..i]) == Folded(ps, lines[..i + 1])
  {
    hide ParseLine, Faulty;
    forall i: nat | i < |lines| ensures lines[..i + 1][1..] == lines[1..][..i] && lines[..i + 1][0] == lines[0] {
    }
  }

  /** parse answers 0 if and only if no line is in error; otherwise it answers the number of the
      first line that is, and has taken in the lines up to it. */
  lemma {:induction false} ParseReports(ps: Parser, lines: seq<string>, done: nat)
    ensures var (r, n) := ParseLines(ps, lines, done);
            && (n == 0 <==> forall i: nat :: !FaultyAt(ps, lines, i))
            && (n == 0 ==> r == Folded(ps, lines))
            && (n != 0 ==>
                  && done < n <= done + |lines| && FaultyAt(ps, lines, n - 1 - done)
                  && (forall i: nat :: i < n - 1 - done ==> !FaultyAt(ps, lines, i))
                  && r == Folded(ps, lines[..n - done]))
    decreases |lines|
  {
    hide ParseLine, Faulty;
    if lines != [] {
      var next := ParseLine(ps, lines[0]).0;
      FaultyExactly(ps, lines[0]);
      FaultyShift(ps, lines);
      assert FaultyAt(ps, lines, 0) <==> ParseLine(ps, lines[0]).1;
      if ParseLine(ps, lines[0]).1 {
        assert lines[..1][1..] == [];
      } else {
        ParseReports(next, lines[1..], done + 1);
        var (r, n) := ParseLines(next, lines[1..], done + 1);
        assert forall i: nat :: i > 0 ==> (FaultyAt(ps, lines, i) <==> FaultyAt(next, lines[1..], i - 1));
        if n != 0 {
          assert lines[..n - done] == lines[..n - done - 1 + 1];
        }
      }
    }
  }

  // ----- the ':' form -----

  function ColonLine(key: string, text: string): string { key + ":" + text + "\n" }

  predicate ColonKey(key: string) { GoodKey(key) && Without(key, ':') }

  /** What pushing the value v under the key makes of the parser. */
  function Gives(ps: Parser, key: string, v: string): Parser {
    Parser(ps.section, key, Push(ps.values, MakeKey(ps.section, key), v))
  }

  /** The value starts two characters behind the ':' sign, whatever the first of them is. */
  lemma ColonLineParses(ps: Parser, key: string, c: char, v: string)
    requires ColonKey(key) && GoodValue(v) && Without(v, '=') && c != '=' && c != NUL
    ensures ParseLine(ps, ColonLine(key, [c] + v)) == (Gives(ps, key, v), false)
  {
    var line := ColonLine(key, [c] + v);
    var k := |key|;
    ColonShape(key, c, v);
    SkipStays(line, 0);
    TillFinds(line, 0, |line|, '=');
    TillFinds(line, 0, k, ':');
    StripStays(key);
    SkipStays(line, k);
    ColonValue(line, k + 2, v);
    hide TillEnd;
  }

  lemma ColonShape(key: string, c: char, v: string)
    requires ColonKey(key) && GoodValue(v) && Without(v, '=') && c != '=' && c != NUL
    ensures var line, k := ColonLine(key, [c] + v), |key|;
            && |line| == k + 2 + |v| + 1 && line[..k] == key && line[k] == ':'
            && line[k + 2..|line| - 1] == v && line[|line| - 1] == '\n' && line[0] == key[0]
            && (forall i :: 0 <= i < k ==> line[i] == key[i])
            && (forall i :: k + 2 <= i < |line| - 1 ==> line[i] == v[i - k - 2])
            && (forall i :: 0 <= i < |line| ==> line[i] != '=' && line[i] != NUL)
  {
    var line, k := ColonLine(key, [c] + v), |key|;
    assert line == key + [':', c] + v + ['\n'];
    assert forall i :: k + 2 <= i < |line| - 1 ==> line[i] == v[i - k - 2] && !EndsValue(v[i - k - 2]);
  }

  lemma ColonValue(line: string, b: nat, v: string)
    requires b + |v| + 1 == |line| && line[b..|line| - 1] == v && line[|line| - 1] == '\n' && GoodValue(v)
    requires forall i :: b <= i < |line| - 1 ==> line[i] == v[i - b]
    ensures TillEnd(line, Scan(b, false)).1 == v
  {
    if v == "" {
      assert SkipFrom(line, b) == SkipFrom(line, b + 1) == b + 1;
    } else {
      assert !EndsValue(v[0]) && !EndsValue(v[|v| - 1]);
      SkipStays(line, b);
      EndFinds(line, b, |line| - 1);
      StripStays(v);
    }
  }

  /** So a value directly behind the ':' sign comes back if and only if it is empty: otherwise it
      loses its first character. */
  lemma ColonLosesFirst(ps: Parser, key: string, v: string)
    requires ColonKey(key) && GoodValue(v) && Without(v, '=')
    ensures var (r, err) := ParseLine(ps, ColonLine(key, v));
            && !err && r == Gives(ps, key, if v == "" then "" else v[1..])
            && (r == Gives(ps, key, v) <==> v == "")
  {
    if v == "" {
      ColonEmpty(ps, key);
    } else {
      assert !EndsValue(v[0]) && [v[0]] + v[1..] == v;
      ColonLineParses(ps, key, v[0], v[1..]);
      var k := MakeKey(ps.section, key);
      var a, b := Push(ps.values, k, v[1..])[k], Push(ps.values, k, v)[k];
      assert a[|a| - 1] == v[1..] && b[|b| - 1] == v;
      hide ParseLine, MakeKey;
    }
  }

  lemma ColonEmpty(ps: Parser, key: string)
    requires ColonKey(key)
    ensures ParseLine(ps, ColonLine(key, "")) == (Gives(ps, key, ""), false)
  {
    var line, k := ColonLine(key, ""), |key|;
    assert line == key + [':', '\n'] && line[..k] == key && line[k] == ':' && line[0] == key[0];
    assert forall i :: 0 <= i < k ==> line[i] == key[i];
    SkipStays(line, 0);
    TillFinds(line, 0, |line|, '=');
    TillFinds(line, 0, k, ':');
    StripStays(key);
    SkipStays(line, k);
  }
}
