/** What a configuration file may hold besides its entries: comments and blank lines, white space
    and trailing text; and when two keys are the same. */
module ConfNotes {
  import opened ConfSpec
  import opened ConfRoundTrip

  // ----- comments and blank lines -----

  /** A blank line or a comment, indented or not. */
  predicate Note(line: string) {
    var c := At(line, SkipFrom(line, 0));
    c == ';' || c == '#' || c == NUL
  }

  /** It leaves section, key and values alone. */
  lemma NoteIgnored(ps: Parser, line: string)
    requires Note(line)
    ensures ParseLine(ps, line) == (ps, false)
  {
  }

  function Kept(lines: seq<string>): seq<string> {
    if lines == [] then []
    else (if Note(lines[0]) then [] else [lines[0]]) + Kept(lines[1..])
  }

  /** Wherever they stand, they change nothing but the numbers of the lines. */
  lemma {:induction false} NotesIgnored(ps: Parser, lines: seq<string>, m: nat, n: nat)
    ensures var a, b := ParseLines(ps, lines, m), ParseLines(ps, Kept(lines), n);
            a.0 == b.0 && (a.1 == 0 <==> b.1 == 0)
    decreases |lines|
  {
    hide ParseLine, Note;
    if lines != [] {
      if Note(lines[0]) {
        NoteIgnored(ps, lines[0]);
        assert Kept(lines) == Kept(lines[1..]);
        NotesIgnored(ps, lines[1..], m + 1, n);
      } else {
        assert Kept(lines)[0] == lines[0] && Kept(lines)[1..] == Kept(lines[1..]);
        NotesIgnored(ParseLine(ps, lines[0]).0, lines[1..], m + 1, n + 1);
      }
    }
  }

  lemma EntryLineKept(e: Entry)
    requires GoodEntry(e)
    ensures !Note(EntryLine(e))
  {
    assert EntryLine(e)[0] == e.key[0];
    SkipStays(EntryLine(e), 0);
  }

  lemma MoreLineKept(s: string)
    requires GoodMore(s)
    ensures !Note(MoreLine(s))
  {
    assert MoreLine(s)[0] == ' ' && MoreLine(s)[1] == s[0];
    SkipStays(MoreLine(s), 1);
    assert SkipFrom(MoreLine(s), 0) == 1;
  }

  lemma {:induction false} KeptMore(more: seq<string>, rest: seq<string>)
    requires forall i :: 0 <= i < |more| ==> GoodMore(more[i])
    ensures Kept(MoreLines(more) + rest) == MoreLines(more) + Kept(rest)
    decreases |more|
  {
    hide GoodMore, MoreLine, Note;
    if more == [] {
      assert MoreLines(more) + rest == rest && [] + Kept(rest) == Kept(rest);
    } else {
      MoreLineKept(more[0]);
      KeptMore(more[1..], rest);
      assert (MoreLines(more) + rest)[1..] == MoreLines(more[1..]) + rest;
      assert Kept(MoreLines(more) + rest) == [MoreLine(more[0])] + (MoreLines(more[1..]) + Kept(rest));
    }
  }

  lemma {:induction false} KeptEntries(es: seq<Entry>, rest: seq<string>)
    requires forall i :: 0 <= i < |es| ==> GoodEntry(es[i])
    ensures Kept(EntryLines(es) + rest) == EntryLines(es) + Kept(rest)
    decreases |es|
  {
    hide GoodMore, GoodKey, GoodValue, EntryLine, MoreLines, Note;
    if es == [] {
      assert EntryLines(es) + rest == rest && [] + Kept(rest) == Kept(rest);
    } else {
      var e, tail := es[0], EntryLines(es[1..]) + rest;
      EntryLineKept(e);
      KeptEntries(es[1..], rest);
      KeptMore(e.more, tail);
      assert EntryLines(es) + rest == [EntryLine(e)] + (MoreLines(e.more) + tail);
      assert ([EntryLine(e)] + (MoreLines(e.more) + tail))[1..] == MoreLines(e.more) + tail;
      assert EntryLines(es) + Kept(rest) == [EntryLine(e)] + (MoreLines(e.more) + (EntryLines(es[1..]) + Kept(rest)));
    }
  }

  /** A rendered configuration holds no such lines. */
  lemma {:induction false} KeptConf(doc: seq<Section>)
    requires GoodConf(doc)
    ensures Kept(ConfLines(doc)) == ConfLines(doc)
    decreases |doc|
  {
    hide GoodName, GoodEntry, EntryLines, Note;
    if doc != [] {
      var sec, rest := doc[0], ConfLines(doc[1..]);
      assert GoodSection(sec);
      KeptConf(doc[1..]);
      KeptEntries(sec.entries, rest);
      NameLineKept(sec.name);
      assert ConfLines(doc) == [NameLine(sec.name)] + (EntryLines(sec.entries) + rest);
      assert ([NameLine(sec.name)] + (EntryLines(sec.entries) + rest))[1..] == EntryLines(sec.entries) + rest;
    }
  }

  lemma NameLineKept(name: string)
    ensures !Note(NameLine(name))
  {
    assert NameLine(name)[0] == '[';
    SkipStays(NameLine(name), 0);
  }

  /** The round trip for a file with any comments and blank lines between the rendered lines. */
  lemma RoundTripWithNotes(doc: seq<Section>, lines: seq<string>, k: string)
    requires GoodConf(doc) && Kept(lines) == ConfLines(doc)
    requires forall i :: 0 <= i < |lines| ==> WholeLine(lines[i])
    ensures var (ps, result) := ParseLines(Parser("", "", map[]), FgetsLines(Join(lines)), 0);
            && result == 0
            && Group(ps.values, k) == Collected(doc, k)
            && (k in ps.values <==> Collected(doc, k) != [])
  {
    hide ParseLines, ConfLines, Kept, WholeLine, FgetsLines, Join, Collected;
    var ps0 := Parser("", "", map[]);
    FgetsSplits(lines);
    NotesIgnored(ps0, lines, 0, 0);
    ConfParses(ps0, doc, 0);
    ConfGroups(ps0, doc, k);
    hide AfterConf;
  }

  // ----- white space and trailing text -----

  predicate AllSpace(s: string) {
    forall i :: 0 <= i < |s| ==> IsSpace(s[i])
  }

  lemma {:induction false} StripSpaces(s: string, a: string)
    requires AllSpace(a)
    ensures RStrip(s + a) == RStrip(s)
    decreases |a|
  {
    if a == "" {
      assert s + a == s;
    } else {
      assert (s + a)[..|s + a| - 1] == s + a[..|a| - 1];
      StripSpaces(s, a[..|a| - 1]);
    }
  }

  lemma {:induction false} SkipSpaces(s: string, p: nat, e: nat)
    requires p <= e < |s| && !IsSpace(s[e]) && forall i :: p <= i < e ==> IsSpace(s[i])
    ensures SkipFrom(s, p) == e
    decreases e - p
  {
    if p < e {
      SkipSpaces(s, p + 1, e);
    }
  }

  lemma {:induction false} EndStops(s: string, p: nat, e: nat)
    requires p <= e <= |s| && (e < |s| ==> EndsValue(s[e])) && forall i :: p <= i < e ==> !EndsValue(s[i])
    ensures EndFrom(s, p) == e
    decreases e - p
  {
    if p < e {
      EndStops(s, p + 1, e);
    }
  }

  function LooseEntry(key: string, a: string, b: string, v: string, tail: string): string {
    key + a + "=" + b + v + tail
  }

  /** An entry gives its value with white space around the sign and with anything behind it, such
      as a comment, that does not belong to the token. */
  lemma LooseEntryParses(ps: Parser, key: string, a: string, b: string, v: string, tail: string)
    requires GoodKey(key) && AllSpace(a) && AllSpace(b)
    requires GoodValue(v) && v != "" && (tail != "" ==> EndsValue(tail[0]))
    ensures ParseLine(ps, LooseEntry(key, a, b, v, tail)) ==
            (Parser(ps.section, key, Push(ps.values, MakeKey(ps.section, key), v)), false)
  {
    hide Till, TillEnd;
    var line, e := LooseEntry(key, a, b, v, tail), |key| + |a|;
    LooseShape(key, a, b, v, tail);
    SkipStays(line, 0);
    SkipStays(line, e);
    LooseKey(line, key, a);
    LooseValue(line, e + 1, |b|, v);
  }

  lemma LooseKey(line: string, key: string, a: string)
    requires GoodKey(key) && AllSpace(a) && |key| + |a| < |line|
    requires line[..|key| + |a|] == key + a && line[|key| + |a|] == '=' && line[0] == key[0]
    requires forall i :: 0 <= i < |key| + |a| ==> line[i] != '=' && line[i] != NUL
    ensures Till(line, Scan(0, false), '=') == (Scan(|key| + |a|, false), key)
  {
    SkipStays(line, 0);
    TillFinds(line, 0, |key| + |a|, '=');
    StripSpaces(key, a);
    StripStays(key);
    hide RStrip;
  }

  lemma LooseShape(key: string, a: string, b: string, v: string, tail: string)
    requires GoodKey(key) && AllSpace(a) && AllSpace(b) && v != ""
    ensures var line, e, q := LooseEntry(key, a, b, v, tail), |key| + |a|, |key| + |a| + 1 + |b|;
            && |line| == q + |v| + |tail|
            && line[0] == key[0] && line[e] == '=' && line[..e] == key + a && line[q..q + |v|] == v
            && (forall i :: 0 <= i < e ==> line[i] != '=' && line[i] != NUL)
            && (forall i :: e < i < q ==> IsSpace(line[i]))
            && (forall i :: q <= i < q + |v| ==> line[i] == v[i - q])
            && (tail != "" ==> line[q + |v|] == tail[0])
  {
    var line, e, q := LooseEntry(key, a, b, v, tail), |key| + |a|, |key| + |a| + 1 + |b|;
    assert forall i :: 0 <= i < |key| ==> line[i] == key[i];
    assert forall i :: |key| <= i < e ==> line[i] == a[i - |key|];
    assert forall i :: e < i < q ==> line[i] == b[i - e - 1];
  }

  lemma LooseValue(line: string, p: nat, n: nat, v: string)
    requires p + n + |v| <= |line| && v != "" && GoodValue(v)
    requires forall i :: p <= i < p + n ==> IsSpace(line[i])
    requires forall i :: p + n <= i < p + n + |v| ==> line[i] == v[i - p - n]
    requires p + n + |v| < |line| ==> EndsValue(line[p + n + |v|])
    ensures TillEnd(line, Scan(p, false)).1 == v
  {
    assert !EndsValue(v[0]) && !EndsValue(v[|v| - 1]) && line[p + n] == v[0];
    SkipSpaces(line, p, p + n);
    EndStops(line, p + n, p + n + |v|);
    assert line[p + n..p + n + |v|] == v;
    StripStays(v);
  }

  function LooseName(lead: string, a: string, name: string, b: string, tail: string): string {
    lead + "[" + a + name + b + "]" + tail
  }

  /** A section line gives its name with white space around it and the brackets, and with anything
      behind them. */
  lemma LooseNameParses(ps: Parser, lead: string, a: string, name: string, b: string, tail: string)
    requires AllSpace(lead) && AllSpace(a) && AllSpace(b)
    requires Plain(name) && Trim(name) && Without(name, ']') && name != ""
    ensures ParseLine(ps, LooseName(lead, a, name, b, tail)) == (Parser(name, "", ps.values), false)
  {
    var line, p := LooseName(lead, a, name, b, tail), |lead|;
    var q, e := p + 1 + |a|, p + 1 + |a| + |name| + |b|;
    LooseNameShape(lead, a, name, b, tail);
    SkipSpaces(line, 0, p);
    SkipSpaces(line, p + 1, q);
    TillFinds(line, q, e, ']');
    assert line[q..e] == name + b;
    StripSpaces(name, b);
    StripStays(name);
    SkipStays(line, e);
    hide RStrip;
  }

  lemma LooseNameShape(lead: string, a: string, name: string, b: string, tail: string)
    requires AllSpace(lead) && AllSpace(a) && AllSpace(b) && Plain(name) && Trim(name) && Without(name, ']') && name != ""
    ensures var line, p := LooseName(lead, a, name, b, tail), |lead|;
            var q, e := p + 1 + |a|, p + 1 + |a| + |name| + |b|;
            && |line| == e + 1 + |tail| && line[p] == '[' && line[e] == ']' && line[q..e] == name + b
            && line[q] == name[0]
            && (forall i :: 0 <= i < p ==> IsSpace(line[i]))
            && (forall i :: p < i < q ==> IsSpace(line[i]))
            && (forall i :: q <= i < e ==> line[i] != ']' && line[i] != NUL)
  {
    var line, p := LooseName(lead, a, name, b, tail), |lead|;
    var q := p + 1 + |a|;
    assert forall i :: 0 <= i < p ==> line[i] == lead[i];
    assert forall i :: p < i < q ==> line[i] == a[i - p - 1];
    assert forall i :: q <= i < q + |name| ==> line[i] == name[i - q];
    assert forall i :: q + |name| <= i < q + |name| + |b| ==> line[i] == b[i - q - |name|];
  }

  // ----- keys -----

  /** The same letter, upper or lower case. */
  predicate SameLetter(c: char, d: char) {
    || c == d
    || ('A' <= c <= 'Z' && d as int == c as int + 32)
    || ('A' <= d <= 'Z' && c as int == d as int + 32)
  }

  predicate SameText(s: string, t: string) {
    |s| == |t| && forall i :: 0 <= i < |s| ==> SameLetter(s[i], t[i])
  }

  lemma {:induction false} LowerAt(s: string)
    ensures forall i :: 0 <= i < |s| ==> Lower(s)[i] == ToLower(s[i])
  {
    if s != "" {
      LowerAt(s[1..]);
    }
  }

  /** Two keys are the same if and only if their texts differ in the case of letters at most. */
  lemma KeysFoldCase(section: string, name: string, section': string, name': string)
    ensures MakeKey(section, name) == MakeKey(section', name') <==>
            SameText(section + "." + name, section' + "." + name')
  {
    var s, t := section + "." + name, section' + "." + name';
    LowerAt(s);
    LowerAt(t);
    hide Lower;
    if |s| == |t| {
      assert forall i :: 0 <= i < |s| ==> (ToLower(s[i]) == ToLower(t[i]) <==> SameLetter(s[i], t[i]));
      assert SameText(s, t) ==> Lower(s) == Lower(t);
    }
  }

  /** So a dot in a name may just as well belong to the section. */
  lemma DotsCollide(a: string, b: string, c: string)
    ensures MakeKey(a, b + "." + c) == MakeKey(a + "." + b, c)
  {
    assert a + "." + (b + "." + c) == a + "." + b + "." + c;
  }
}
