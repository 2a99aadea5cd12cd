/** Rendering a configuration and parsing it back. */
module ConfRoundTrip {
  import opened ConfSpec

  /** key=value, followed by indented continuation values. */
  datatype Entry = Entry(key: string, value: string, more: seq<string>)

  datatype Section = Section(name: string, entries: seq<Entry>)

  /** No character in s is special for a line: no terminator and no newline. */
  predicate Plain(s: string) {
    forall i :: 0 <= i < |s| ==> s[i] != NUL && s[i] != '\n'
  }

  predicate Trim(s: string) {
    s == "" || (!IsSpace(s[0]) && !IsSpace(s[|s| - 1]))
  }

  predicate Without(s: string, c: char) {
    forall i :: 0 <= i < |s| ==> s[i] != c
  }

  predicate GoodName(s: string) { Plain(s) && Trim(s) && Without(s, ']') && |s| + 3 < MAXSIZE }

  predicate Starts(s: string) {
    s != "" && s[0] != ';' && s[0] != '#' && s[0] != '['
  }

  predicate GoodKey(s: string) { Plain(s) && Trim(s) && Starts(s) && Without(s, '=') }

  /** The '=' form reads one token, up to white space or a comment. */
  predicate GoodValue(s: string) {
    forall i :: 0 <= i < |s| ==> !EndsValue(s[i])
  }

  predicate GoodMore(s: string) { Plain(s) && Trim(s) && Starts(s) && |s| + 2 < MAXSIZE }

  predicate GoodEntry(e: Entry) {
    && GoodKey(e.key) && GoodValue(e.value) && |e.key| + |e.value| + 2 < MAXSIZE
    && forall i :: 0 <= i < |e.more| ==> GoodMore(e.more[i])
  }

  predicate GoodSection(s: Section) {
    GoodName(s.name) && forall i :: 0 <= i < |s.entries| ==> GoodEntry(s.entries[i])
  }

  predicate GoodConf(doc: seq<Section>) {
    forall i :: 0 <= i < |doc| ==> GoodSection(doc[i])
  }

  function NameLine(name: string): string { "[" + name + "]\n" }
  function EntryLine(e: Entry): string { e.key + "=" + e.value + "\n" }
  function MoreLine(s: string): string { " " + s + "\n" }

  function MoreLines(more: seq<string>): seq<string> {
    if more == [] then [] else [MoreLine(more[0])] + MoreLines(more[1..])
  }

  function EntryLines(es: seq<Entry>): seq<string> {
    if es == [] then [] else [EntryLine(es[0])] + MoreLines(es[0].more) + EntryLines(es[1..])
  }

  function ConfLines(doc: seq<Section>): seq<string> {
    if doc == [] then [] else [NameLine(doc[0].name)] + EntryLines(doc[0].entries) + ConfLines(doc[1..])
  }

  function Join(lines: seq<string>): string {
    if lines == [] then "" else lines[0] + Join(lines[1..])
  }

  /** The file that holds the sections in order. */
  function Render(doc: seq<Section>): string { Join(ConfLines(doc)) }

  // ----- scanning a line with a known shape -----

  lemma SkipStays(s: string, p: nat)
    requires p >= |s| || !IsSpace(s[p])
    ensures SkipFrom(s, p) == p
  {
  }

  lemma {:induction false} TillFinds(s: string, p: nat, e: nat, c: char)
    requires p <= e <= |s| && (e == |s| || s[e] == c || s[e] == NUL)
    requires forall i :: p <= i < e ==> s[i] != c && s[i] != NUL
    ensures TillFrom(s, p, c) == e
    decreases e - p
  {
    if p < e {
      TillFinds(s, p + 1, e, c);
    }
  }

  lemma {:induction false} EndFinds(s: string, p: nat, e: nat)
    requires p <= e < |s| && EndsValue(s[e])
    requires forall i :: p <= i < e ==> !EndsValue(s[i])
    ensures EndFrom(s, p) == e
    decreases e - p
  {
    if p < e {
      EndFinds(s, p + 1, e);
    }
  }

  lemma StripStays(s: string)
    requires Trim(s)
    ensures RStrip(s) == s
  {
  }

  lemma NameLineParses(ps: Parser, name: string)
    requires GoodName(name)
    ensures ParseLine(ps, NameLine(name)) == (Parser(name, "", ps.values), false)
  {
    var line := NameLine(name);
    var e := 1 + |name|;
    assert line[0] == '[' && line[e] == ']' && line[1..e] == name;
    SkipStays(line, 0);
    assert forall i :: 1 <= i < e ==> line[i] == name[i - 1];
    SkipStays(line, 1);
    TillFinds(line, 1, e, ']');
    StripStays(name);
    SkipStays(line, e);
  }

  lemma MoreLineParses(ps: Parser, s: string)
    requires GoodMore(s) && ps.key != ""
    ensures ParseLine(ps, MoreLine(s)) ==
            (ps.(values := Push(ps.values, MakeKey(ps.section, ps.key), s)), false)
  {
    var line := MoreLine(s);
    var e := |line|;
    assert line[0] == ' ' && line[1] == s[0] && line[1..e] == s + "\n";
    SkipStays(line, 1);
    assert SkipFrom(line, 0) == 1;
    assert forall i :: 1 <= i < e - 1 ==> line[i] == s[i - 1];
    TillFinds(line, 1, e, NUL);
    assert RStrip(s + "\n") == RStrip(s) by {
      assert (s + "\n")[..|s|] == s;
    }
    StripStays(s);
  }

  lemma EntryLineParses(ps: Parser, e: Entry)
    requires GoodEntry(e)
    ensures ParseLine(ps, EntryLine(e)) ==
            (Parser(ps.section, e.key, Push(ps.values, MakeKey(ps.section, e.key), e.value)), false)
  {
    var line := EntryLine(e);
    var k := |e.key|;
    var v := k + 1 + |e.value|;
    assert line[0] == e.key[0] && line[k] == '=' && line[..k] == e.key && line[k + 1..v] == e.value && line[v] == '\n';
    assert forall i :: 0 <= i < k ==> line[i] == e.key[i];
    assert forall i :: k + 1 <= i < v ==> line[i] == e.value[i - k - 1];
    SkipStays(line, 0);
    TillFinds(line, 0, k, '=');
    StripStays(e.key);
    SkipStays(line, k);
    EntryValue(line, e, k, v);
  }

  lemma EntryValue(line: string, e: Entry, k: nat, v: nat)
    requires line == EntryLine(e) && k == |e.key| && v == k + 1 + |e.value| && GoodValue(e.value)
    ensures TillEnd(line, Scan(k + 1, false)).1 == e.value
  {
    assert |line| == v + 1 && line[v] == '\n' && line[k + 1..v] == e.value;
    assert forall i :: k + 1 <= i < v ==> line[i] == e.value[i - k - 1];
    if e.value == "" {
      assert SkipFrom(line, k + 1) == SkipFrom(line, k + 2) == k + 2;
    } else {
      SkipStays(line, k + 1);
      EndFinds(line, k + 1, v);
      assert !EndsValue(e.value[0]) && !EndsValue(e.value[|e.value| - 1]);
      StripStays(e.value);
    }
  }

  // ----- parsing what was rendered -----

  function AfterMore(ps: Parser, more: seq<string>): Parser
    decreases |more|
  {
    if more == [] then ps
    else AfterMore(ps.(values := Push(ps.values, MakeKey(ps.section, ps.key), more[0])), more[1..])
  }

  function AfterEntry(ps: Parser, e: Entry): Parser {
    AfterMore(Parser(ps.section, e.key, Push(ps.values, MakeKey(ps.section, e.key), e.value)), e.more)
  }

  function AfterEntries(ps: Parser, es: seq<Entry>): Parser
    decreases |es|
  {
    if es == [] then ps else AfterEntries(AfterEntry(ps, es[0]), es[1..])
  }

  function AfterConf(ps: Parser, doc: seq<Section>): Parser
    decreases |doc|
  {
    if doc == [] then ps
    else AfterConf(AfterEntries(Parser(doc[0].name, "", ps.values), doc[0].entries), doc[1..])
  }

  lemma ParseFirst(ps: Parser, line: string, rest: seq<string>, done: nat)
    requires !ParseLine(ps, line).1
    ensures ParseLines(ps, [line] + rest, done) == ParseLines(ParseLine(ps, line).0, rest, done + 1)
  {
  }

  lemma {:induction false} MoreParses(ps: Parser, more: seq<string>, rest: seq<string>, done: nat)
    requires ps.key != "" && forall i :: 0 <= i < |more| ==> GoodMore(more[i])
    ensures ParseLines(ps, MoreLines(more) + rest, done) == ParseLines(AfterMore(ps, more), rest, done + |more|)
    ensures AfterMore(ps, more).section == ps.section
    decreases |more|
  {
    hide ParseLine, ParseLines, GoodMore, MoreLine, MakeKey;
    if more == [] {
      assert MoreLines(more) + rest == rest;
    } else {
      MoreLineParses(ps, more[0]);
      ParseFirst(ps, MoreLine(more[0]), MoreLines(more[1..]) + rest, done);
      assert MoreLines(more) + rest == [MoreLine(more[0])] + (MoreLines(more[1..]) + rest);
      MoreParses(ParseLine(ps, MoreLine(more[0])).0, more[1..], rest, done + 1);
    }
  }

  lemma EntryParses(ps: Parser, e: Entry, rest: seq<string>, done: nat)
    requires GoodEntry(e)
    ensures ParseLines(ps, [EntryLine(e)] + (MoreLines(e.more) + rest), done) ==
            ParseLines(AfterEntry(ps, e), rest, done + 1 + |e.more|)
    ensures AfterEntry(ps, e).section == ps.section
  {
    hide ParseLine, EntryLine, GoodMore, ParseLines, GoodValue, MakeKey, AfterMore, MoreLines;
    EntryLineParses(ps, e);
    ParseFirst(ps, EntryLine(e), MoreLines(e.more) + rest, done);
    MoreParses(ParseLine(ps, EntryLine(e)).0, e.more, rest, done + 1);
  }

  lemma {:induction false} EntriesParse(ps: Parser, es: seq<Entry>, rest: seq<string>, done: nat)
    requires forall i :: 0 <= i < |es| ==> GoodEntry(es[i])
    ensures ParseLines(ps, EntryLines(es) + rest, done) ==
            ParseLines(AfterEntries(ps, es), rest, done + |EntryLines(es)|)
    decreases |es|
  {
    hide GoodEntry, EntryLine, AfterEntry, ParseLines;
    if es == [] {
      assert EntryLines(es) + rest == rest;
    } else {
      MoreCount(es[0].more);
      EntryParses(ps, es[0], EntryLines(es[1..]) + rest, done);
      assert EntryLines(es) + rest ==
             [EntryLine(es[0])] + (MoreLines(es[0].more) + (EntryLines(es[1..]) + rest));
      EntriesParse(AfterEntry(ps, es[0]), es[1..], rest, done + 1 + |es[0].more|);
    }
  }

  lemma {:induction false} MoreCount(more: seq<string>)
    ensures |MoreLines(more)| == |more|
  {
    if more != [] {
      MoreCount(more[1..]);
    }
  }

  lemma SectionParses(ps: Parser, sec: Section, rest: seq<string>, done: nat)
    requires GoodSection(sec)
    ensures ParseLines(ps, [NameLine(sec.name)] + (EntryLines(sec.entries) + rest), done) ==
            ParseLines(AfterEntries(Parser(sec.name, "", ps.values), sec.entries), rest,
                       done + 1 + |EntryLines(sec.entries)|)
  {
    hide ParseLine, ParseLines, NameLine, GoodName, GoodEntry, AfterEntries, EntryLines;
    NameLineParses(ps, sec.name);
    ParseFirst(ps, NameLine(sec.name), EntryLines(sec.entries) + rest, done);
    EntriesParse(Parser(sec.name, "", ps.values), sec.entries, rest, done + 1);
  }

  lemma {:induction false} ConfParses(ps: Parser, doc: seq<Section>, done: nat)
    requires GoodConf(doc)
    ensures ParseLines(ps, ConfLines(doc), done) == (AfterConf(ps, doc), 0)
    decreases |doc|
  {
    hide GoodSection, NameLine, AfterEntries, EntryLines, ParseLine;
    if doc != [] {
      hide ParseLines;
      var sec, rest := doc[0], ConfLines(doc[1..]);
      SectionParses(ps, sec, rest, done);
      assert ConfLines(doc) == [NameLine(sec.name)] + (EntryLines(sec.entries) + rest);
      ConfParses(AfterEntries(Parser(sec.name, "", ps.values), sec.entries), doc[1..],
                 done + 1 + |EntryLines(sec.entries)|);
    }
  }

  // ----- the groups -----

  /** getStrings on the values themselves. */
  function Group(values: Values, k: string): seq<string> {
    if k in values then values[k] else []
  }

  function EntryValues(section: string, e: Entry, k: string): seq<string> {
    if MakeKey(section, e.key) == k then [e.value] + e.more else []
  }

  function EntriesValues(section: string, es: seq<Entry>, k: string): seq<string> {
    if es == [] then [] else EntryValues(section, es[0], k) + EntriesValues(section, es[1..], k)
  }

  /** All values that the configuration gives to k, in the order of the file. */
  function Collected(doc: seq<Section>, k: string): seq<string> {
    if doc == [] then [] else EntriesValues(doc[0].name, doc[0].entries, k) + Collected(doc[1..], k)
  }

  ghost predicate NoEmptyGroup(values: Values) {
    forall k :: k in values ==> values[k] != []
  }

  lemma {:induction false} MoreGroups(ps: Parser, more: seq<string>, k: string)
    ensures var r := AfterMore(ps, more);
            && r.section == ps.section
            && Group(r.values, k) == Group(ps.values, k) + (if MakeKey(ps.section, ps.key) == k then more else [])
            && (NoEmptyGroup(ps.values) ==> NoEmptyGroup(r.values))
    decreases |more|
  {
    hide MakeKey;
    if more == [] {
      assert Group(ps.values, k) + [] == Group(ps.values, k);
    } else {
      var key := MakeKey(ps.section, ps.key);
      MoreGroups(ps.(values := Push(ps.values, key, more[0])), more[1..], k);
      if key == k {
        assert Group(ps.values, k) + [more[0]] + more[1..] == Group(ps.values, k) + more;
      }
    }
  }

  lemma EntryGroups(ps: Parser, e: Entry, k: string)
    ensures var r := AfterEntry(ps, e);
            && r.section == ps.section
            && Group(r.values, k) == Group(ps.values, k) + EntryValues(ps.section, e, k)
            && (NoEmptyGroup(ps.values) ==> NoEmptyGroup(r.values))
  {
    hide MakeKey, AfterMore;
    var key := MakeKey(ps.section, e.key);
    MoreGroups(Parser(ps.section, e.key, Push(ps.values, key, e.value)), e.more, k);
    if key == k {
      assert Group(ps.values, k) + [e.value] + e.more == Group(ps.values, k) + ([e.value] + e.more);
    }
  }

  lemma {:induction false} EntriesGroups(ps: Parser, es: seq<Entry>, k: string)
    ensures var r := AfterEntries(ps, es);
            && Group(r.values, k) == Group(ps.values, k) + EntriesValues(ps.section, es, k)
            && (NoEmptyGroup(ps.values) ==> NoEmptyGroup(r.values))
    decreases |es|
  {
    hide AfterEntry, EntryValues, Group, NoEmptyGroup;
    if es == [] {
      assert Group(ps.values, k) + [] == Group(ps.values, k);
    } else {
      EntryGroups(ps, es[0], k);
      EntriesGroups(AfterEntry(ps, es[0]), es[1..], k);
      var a, b := EntryValues(ps.section, es[0], k), EntriesValues(ps.section, es[1..], k);
      assert Group(ps.values, k) + a + b == Group(ps.values, k) + (a + b);
    }
  }

  lemma {:induction false} ConfGroups(ps: Parser, doc: seq<Section>, k: string)
    ensures var r := AfterConf(ps, doc);
            && Group(r.values, k) == Group(ps.values, k) + Collected(doc, k)
            && (NoEmptyGroup(ps.values) ==> NoEmptyGroup(r.values))
    decreases |doc|
  {
    hide AfterEntries, EntriesValues, Group, NoEmptyGroup;
    if doc == [] {
      assert Group(ps.values, k) + [] == Group(ps.values, k);
    } else {
      var ps1 := Parser(doc[0].name, "", ps.values);
      EntriesGroups(ps1, doc[0].entries, k);
      ConfGroups(AfterEntries(ps1, doc[0].entries), doc[1..], k);
      var a, b := EntriesValues(doc[0].name, doc[0].entries, k), Collected(doc[1..], k);
      assert Group(ps.values, k) + a + b == Group(ps.values, k) + (a + b);
    }
  }

  // ----- the file -----

  /** A line that one fgets returns whole. */
  predicate WholeLine(line: string) {
    0 < |line| < MAXSIZE && line[|line| - 1] == '\n' && forall i :: 0 <= i < |line| - 1 ==> line[i] != '\n'
  }

  lemma {:induction false} FgetsWhole(line: string, rest: string, n: nat)
    requires WholeLine(line) && n < |line|
    ensures FgetsLength(line + rest, n) == |line|
    decreases |line| - n
  {
    if n < |line| - 1 {
      FgetsWhole(line, rest, n + 1);
    }
  }

  lemma {:induction false} FgetsSplits(lines: seq<string>)
    requires forall i :: 0 <= i < |lines| ==> WholeLine(lines[i])
    ensures FgetsLines(Join(lines)) == lines
    decreases |lines|
  {
    if lines != [] {
      var line, rest := lines[0], Join(lines[1..]);
      FgetsWhole(line, rest, 0);
      assert (line + rest)[..|line|] == line && (line + rest)[|line|..] == rest;
      FgetsSplits(lines[1..]);
      hide FgetsLength;
    }
  }

  lemma {:induction false} MoreWhole(more: seq<string>)
    requires forall i :: 0 <= i < |more| ==> GoodMore(more[i])
    ensures forall i :: 0 <= i < |MoreLines(more)| ==> WholeLine(MoreLines(more)[i])
    decreases |more|
  {
    if more != [] {
      assert forall i :: 1 <= i < |MoreLine(more[0])| - 1 ==> MoreLine(more[0])[i] == more[0][i - 1];
      MoreWhole(more[1..]);
    }
  }

  lemma EntryWhole(e: Entry)
    requires GoodEntry(e)
    ensures WholeLine(EntryLine(e))
  {
  }

  lemma {:induction false} EntriesWhole(es: seq<Entry>)
    requires forall i :: 0 <= i < |es| ==> GoodEntry(es[i])
    ensures forall i :: 0 <= i < |EntryLines(es)| ==> WholeLine(EntryLines(es)[i])
    decreases |es|
  {
    if es != [] {
      EntryWhole(es[0]);
      MoreWhole(es[0].more);
      EntriesWhole(es[1..]);
      hide WholeLine, EntryLine;
    }
  }

  lemma {:induction false} ConfWhole(doc: seq<Section>)
    requires GoodConf(doc)
    ensures forall i :: 0 <= i < |ConfLines(doc)| ==> WholeLine(ConfLines(doc)[i])
    decreases |doc|
  {
    if doc != [] {
      var name := doc[0].name;
      assert GoodSection(doc[0]);
      assert forall i :: 1 <= i <= |name| ==> NameLine(name)[i] == name[i - 1];
      assert WholeLine(NameLine(name));
      EntriesWhole(doc[0].entries);
      ConfWhole(doc[1..]);
      hide WholeLine, NameLine;
    }
  }

  /** Rendering any configuration and parsing the file from nothing succeeds and gives back
      every value, grouped by key in the order of the file, and nothing else. */
  lemma RoundTrip(doc: seq<Section>, k: string)
    requires GoodConf(doc)
    ensures var (ps, result) := ParseLines(Parser("", "", map[]), FgetsLines(Render(doc)), 0);
            && result == 0
            && Group(ps.values, k) == Collected(doc, k)
            && (k in ps.values <==> Collected(doc, k) != [])
  {
    var ps0 := Parser("", "", map[]);
    ConfWhole(doc);
    FgetsSplits(ConfLines(doc));
    ConfParses(ps0, doc, 0);
    ConfGroups(ps0, doc, k);
    hide ParseLines, FgetsLines, ConfLines, Collected, AfterConf;
  }
}
