/** LineScanner and Conf of conf.h, loop by loop, against module ConfSpec. */
module Confs {
  import opened ConfSpec
  import opened ConfRoundTrip

  class LineScanner {
    const line: string
    var p: nat
    var err: bool

    ghost function View(): Scan
      reads this
    {
      Scan(p, err)
    }

    constructor (line: string)
      ensures this.line == line && View() == Scan(0, false)
    {
      this.line, p, err := line, 0, false;
    }

    /** The copy that keeps a place to go back to. */
    constructor Copy(other: LineScanner)
      ensures line == other.line && View() == other.View()
    {
      line, p, err := other.line, other.p, other.err;
    }

    method SkipSpace()
      modifies this`p
      ensures View() == Skipped(line, old(View()))
    {
      while !err && p < |line| && IsSpace(line[p])
        invariant Skipped(line, View()) == Skipped(line, old(View()))
        decreases |line| - p
      {
        p := p + 1;
      }
    }

    /** The text from b to e without trailing white space. */
    method Strip(b: nat, e: nat) returns (r: string)
      requires b <= e <= |line|
      ensures err ==> r == line[b..e]
      ensures !err ==> r == RStrip(line[b..e])
    {
      var f := e;
      while !err && f > b && IsSpace(line[f - 1])
        invariant b <= f <= e && (err ==> f == e) && (!err ==> RStrip(line[b..f]) == RStrip(line[b..e]))
      {
        assert line[b..f][..f - 1 - b] == line[b..f - 1] && line[b..f][f - 1 - b] == line[f - 1];
        f := f - 1;
      }
      r := line[b..f];
      assert r != "" ==> r[|r| - 1] == line[f - 1];
    }

    method PeerChar() returns (c: char)
      modifies this`p
      ensures View() == Skipped(line, old(View())) && c == At(line, p)
    {
      SkipSpace();
      c := At(line, p);
    }

    method Skip(i: nat)
      modifies this`p
      ensures p == old(p) + i
    {
      p := p + i;
    }

    method Match(c: char)
      modifies this
      ensures View() == Matched(line, old(View()), c)
    {
      SkipSpace();
      err := At(line, p) != c;
      p := p + 1;
    }

    method ConsumeTill(c: char) returns (r: string)
      modifies this
      ensures (View(), r) == Till(line, old(View()), c)
    {
      SkipSpace();
      var e := p;
      while !err && e < |line| && line[e] != NUL && line[e] != c
        invariant p <= e && (e <= |line| || e == p)
        invariant !err ==> TillFrom(line, e, c) == TillFrom(line, p, c)
        invariant err ==> e == p
        decreases |line| - e
      {
        e := e + 1;
      }
      if At(line, e) != c {
        err := true;
        return "";
      }
      var s := p;
      p := e;
      if e <= |line| {
        r := Strip(s, e);
        assert err ==> line[s..e] == "";
      } else {
        r := "";
      }
    }

    method ConsumeTillEnd() returns (r: string)
      modifies this`p
      ensures (View(), r) == TillEnd(line, old(View()))
    {
      SkipSpace();
      var e := p;
      while !err && e < |line| && line[e] != NUL && line[e] != '#' && line[e] != ';'
        invariant p <= e && (e <= |line| || e == p)
        invariant !err ==> EndFrom(line, e) == EndFrom(line, p)
        invariant err ==> e == p
        decreases |line| - e
      {
        if IsSpace(line[e]) {
          break;
        }
        e := e + 1;
      }
      var b := p;
      p := e;
      if e <= |line| {
        r := Strip(b, e);
        assert err ==> line[b..e] == "";
      } else {
        r := "";
      }
    }
  }

  class Conf {
    var values: Values

    /** Every key that is present has a value; get relies on it. */
    ghost predicate Valid()
      reads this
    {
      NoEmptyGroup(values)
    }

    constructor ()
      ensures Valid() && values == map[]
    {
      values := map[];
    }

    method PushBack(key: string, value: string)
      requires Valid()
      modifies this
      ensures Valid() && values == Push(old(values), key, value)
    {
      values := values[key := (if key in values then values[key] else []) + [value]];
    }

    /** One turn of the line loop. */
    method ParseOne(line: string, section: string, key: string)
      returns (section': string, key': string, err: bool)
      requires Valid()
      modifies this
      ensures Valid()
      ensures (Parser(section', key', values), err) == ParseLine(Parser(section, key, old(values)), line)
    {
      hide Push, MakeKey, Till, TillEnd, NoEmptyGroup, SkipFrom;
      section', key', err := section, key, false;
      var ln := new LineScanner(line);
      var c := ln.PeerChar();
      if c == ';' || c == '#' || c == NUL {
      } else if c == '[' {
        ln.Skip(1);
        section' := ln.ConsumeTill(']');
        ln.Match(']');
        err := ln.err;
        key' := "";
      } else if IsSpace(At(line, 0)) {
        if key == "" {
          err := true;
        } else {
          var value := ln.ConsumeTill(NUL);
          PushBack(MakeKey(section, key), value);
        }
      } else {
        var ls := new LineScanner.Copy(ln);
        key' := ln.ConsumeTill('=');
        c := ln.PeerChar();
        if c != '=' {
          ln := ls;
          key' := ln.ConsumeTill(':');
          ln.Match(':');
          err := ln.err;
        }
        ln.Skip(1);
        var value := ln.ConsumeTillEnd();
        PushBack(MakeKey(section, key'), value);
      }
    }

    /** parse: -1 when the file cannot be opened, otherwise the offending line or 0. */
    method Parse(readable: bool, file: string) returns (result: int)
      requires Valid()
      modifies this
      ensures Valid()
      ensures !readable ==> result == -1 && values == old(values)
      ensures readable ==>
                var (ps, n) := ParseLines(Parser("", "", old(values)), FgetsLines(file), 0);
                result == n && values == ps.values
    {
      if !readable {
        return -1;
      }
      var lineno := 0;
      var err := false;
      var section, key := "", "";
      var rest := file;
      ghost var start := Parser("", "", old(values));
      while !err && rest != ""
        invariant Valid() && lineno >= 0
        invariant !err ==> ParseLines(Parser(section, key, values), FgetsLines(rest), lineno)
                           == ParseLines(start, FgetsLines(file), 0)
        invariant err ==> (Parser(section, key, values), lineno as nat)
                          == ParseLines(start, FgetsLines(file), 0)
        decreases !err, |rest|
      {
        var n := FgetsLength(rest, 0);
        assert FgetsLines(rest) == [rest[..n]] + FgetsLines(rest[n..]);
        assert ([rest[..n]] + FgetsLines(rest[n..]))[1..] == FgetsLines(rest[n..]);
        lineno := lineno + 1;
        section, key, err := ParseOne(rest[..n], section, key);
        rest := rest[n..];
      }
      result := if err then lineno else 0;
    }

    /** get: the last value of the group. */
    method Get(section: string, name: string, default: string) returns (r: string)
      requires Valid()
      ensures var g := Group(values, MakeKey(section, name));
              r == if g == [] then default else g[|g| - 1]
    {
      var key := MakeKey(section, name);
      if key !in values {
        return default;
      }
      r := values[key][|values[key]| - 1];
    }

    method GetStrings(section: string, name: string) returns (r: seq<string>)
      ensures r == Group(values, MakeKey(section, name))
    {
      var key := MakeKey(section, name);
      if key !in values {
        return [];
      }
      r := values[key];
    }
  }
}
