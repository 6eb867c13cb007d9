/** When the contradiction detector reports an opposite assertion, and what it reads as a setting. */
module ContradictionKinds {
  import opened Orders
  import opened OrderedMaps
  import opened Contradictions

  // ----- Words in a text

  ghost predicate Occurs(text: string, word: string) {
    exists x: string, y: string :: text == x + word + y
  }

  lemma {:induction false} ContainsExact(text: string, word: string)
    ensures Contains(text, word) <==> Occurs(text, word)
  {
    if word <= text {
      assert text == "" + word + text[|word|..];
    } else if text != "" {
      ContainsExact(text[1..], word);
      if Occurs(text[1..], word) {
        var x: string, y: string :| text[1..] == x + word + y;
        assert text == ([text[0]] + x) + word + y;
      }
      if Occurs(text, word) { OccursLater(text, word); }
    } else {
      assert !Occurs(text, word);
    }
  }

  /** A word that a text does not begin with occurs after its first character. */
  lemma OccursLater(text: string, word: string)
    requires text != "" && Occurs(text, word) && !(word <= text)
    ensures Occurs(text[1..], word)
  {
    var x: string, y: string :| text == x + word + y;
    assert x != "";
    assert text[1..] == x[1..] + word + y;
  }

  // ----- Opposite assertions

  /** The pairs of opposed words of which one text has one and the other text the other. */
  ghost function Opposed(a: string, b: string): set<(string, string)> {
    set p | p in {("enable", "disable"), ("allow", "forbid"), ("allow", "prohibit"), ("always", "never"), ("use", "avoid"), ("shall", "shall not")}
            && ((Occurs(a, p.0) && Occurs(b, p.1)) || (Occurs(a, p.1) && Occurs(b, p.0)))
  }

  /** The finding about a word. */
  ghost function AssertionCore(a: Record, b: Record, word: string, suppressed: set<FindingId>): Core {
    var id := GenerateId(OppositeAssertion, a.id, b.id, word);
    Core(id, OppositeAssertion, Warning, id in suppressed)
  }

  /** `c` is the finding of a keyword that both texts have. */
  ghost predicate AboutKeyword(a: Record, b: Record, suppressed: set<FindingId>, c: Core) {
    && c.id.detail in {"postgres", "sqlite", "mysql", "pooling", "migration"}
    && Occurs(a.normal, c.id.detail) && Occurs(b.normal, c.id.detail)
    && c == AssertionCore(a, b, c.id.detail, suppressed)
  }

  ghost function OpposedAmong(a: string, b: string, ps: seq<(string, string)>): set<(string, string)> {
    set p | p in ps && Opposite(a, b, p)
  }

  lemma OneMoreOpposed(a: string, b: string, ps: seq<(string, string)>)
    requires NoDup(ps) && ps != []
    ensures var n := |ps| - 1;
            |OpposedAmong(a, b, ps)| == |OpposedAmong(a, b, ps[..n])| + if Opposite(a, b, ps[n]) then 1 else 0
  {
    var n := |ps| - 1;
    var before := OpposedAmong(a, b, ps[..n]);
    assert ps == ps[..n] + [ps[n]];
    assert ps[n] !in before;
    assert OpposedAmong(a, b, ps) == before + if Opposite(a, b, ps[n]) then {ps[n]} else {};
  }

  lemma OneCore(f: Finding, c: Core)
    ensures Cores([f])[c] == if c == CoreOf(f) then 1 else 0
    ensures Cores([])[c] == 0
  {
    assert [f][..0] == [];
    assert Apply(CoreOf, [f]) == [CoreOf(f)];
  }

  lemma {:induction false} PolarityCount(a: Record, b: Record, word: string, ps: seq<(string, string)>, suppressed: set<FindingId>, c: Core)
    requires NoDup(ps)
    ensures Cores(PolarityFindings(a, b, word, ps, suppressed))[c] ==
            if c == AssertionCore(a, b, word, suppressed) then |OpposedAmong(a.normal, b.normal, ps)| else 0
  {
    if ps == [] {
      assert OpposedAmong(a.normal, b.normal, ps) == {};
    } else {
      var n := |ps| - 1;
      PolarityCount(a, b, word, ps[..n], suppressed, c);
      OneMoreOpposed(a.normal, b.normal, ps);
      var id := GenerateId(OppositeAssertion, a.id, b.id, word);
      var f := Finding(id, a.id, b.id, OppositeAssertion, Warning, id in suppressed);
      OneCore(f, c);
      CoresAppend(PolarityFindings(a, b, word, ps[..n], suppressed), if Opposite(a.normal, b.normal, ps[n]) then [f] else []);
    }
  }

  /** The polarities of the code are those six pairs, each once. */
  lemma OpposedExact(a: string, b: string)
    ensures NoDup(Polarities) && OpposedAmong(a, b, Polarities) == Opposed(a, b)
  {
    forall p | p in Polarities ensures Opposite(a, b, p) <==> (Occurs(a, p.0) && Occurs(b, p.1)) || (Occurs(a, p.1) && Occurs(b, p.0)) {
      ContainsExact(a, p.0);
      ContainsExact(b, p.1);
      ContainsExact(a, p.1);
      ContainsExact(b, p.0);
    }
  }

  /** How often a finding is reported about some words. */
  lemma {:induction false} AssertionCount(a: Record, b: Record, words: seq<string>, suppressed: set<FindingId>, c: Core)
    requires NoDup(words)
    ensures Cores(AssertionFindings(a, b, words, suppressed))[c] ==
            if c.id.detail in words && Occurs(a.normal, c.id.detail) && Occurs(b.normal, c.id.detail)
               && c == AssertionCore(a, b, c.id.detail, suppressed)
            then |Opposed(a.normal, b.normal)| else 0
  {
    if words != [] {
      var n := |words| - 1;
      AssertionCount(a, b, words[..n], suppressed, c);
      LastOfNoDup(words, c.id.detail);
      WordCount(a, b, words[n], suppressed, c);
      OneMoreWord(a, b, words, suppressed);
      CoresAppend(AssertionFindings(a, b, words[..n], suppressed), WordFindings(a, b, words[n], suppressed));
    }
  }

  function WordFindings(a: Record, b: Record, word: string, suppressed: set<FindingId>): seq<Finding> {
    if Contains(a.normal, word) && Contains(b.normal, word) then PolarityFindings(a, b, word, Polarities, suppressed) else []
  }

  lemma OneMoreWord(a: Record, b: Record, words: seq<string>, suppressed: set<FindingId>)
    requires words != []
    ensures var n := |words| - 1;
            AssertionFindings(a, b, words, suppressed) == AssertionFindings(a, b, words[..n], suppressed) + WordFindings(a, b, words[n], suppressed)
  {
  }

  lemma WordCount(a: Record, b: Record, word: string, suppressed: set<FindingId>, c: Core)
    ensures Cores(WordFindings(a, b, word, suppressed))[c] ==
            if Occurs(a.normal, word) && Occurs(b.normal, word) && c == AssertionCore(a, b, word, suppressed) then |Opposed(a.normal, b.normal)| else 0
  {
    ContainsExact(a.normal, word);
    ContainsExact(b.normal, word);
    OpposedExact(a.normal, b.normal);
    PolarityCount(a, b, word, Polarities, suppressed, c);
  }

  lemma KeywordsExact(word: string)
    ensures NoDup(Keywords) && (word in Keywords <==> word in {"postgres", "sqlite", "mysql", "pooling", "migration"})
  {
  }

  /** A pair has the finding of each keyword that both texts have, once for each pair of opposed words. */
  lemma PairAssertions(a: Record, b: Record, suppressed: set<FindingId>, c: Core)
    requires c.kind == OppositeAssertion
    ensures Cores(PairFindings(a, b, suppressed))[c] == if AboutKeyword(a, b, suppressed, c) then |Opposed(a.normal, b.normal)| else 0
  {
    var ca, cb := ParseConfigs(a.lines), ParseConfigs(b.lines);
    ConfigFindingsExact(a, b, suppressed, c);
    KeywordsExact(c.id.detail);
    AssertionCount(a, b, Keywords, suppressed, c);
    CoresAppend(ConfigFindings(a.id, b.id, ca.at, cb.at, ca.keys, suppressed), AssertionFindings(a, b, Keywords, suppressed));
  }

  ghost predicate HasCore(fs: seq<Finding>, c: Core) { c in Cores(fs) }

  lemma HasCoreAppend(xs: seq<Finding>, ys: seq<Finding>, c: Core)
    ensures HasCore(xs + ys, c) <==> HasCore(xs, c) || HasCore(ys, c)
    ensures !HasCore([], c)
  {
    CoresAppend(xs, ys);
  }

  lemma OneMoreLater(pair: Pairing, a: Record, rest: seq<Record>, r: Record, c: Core)
    ensures HasCore(AgainstLater(pair, a, rest + [r]), c) <==> HasCore(AgainstLater(pair, a, rest), c) || HasCore(pair(a, r), c)
  {
    assert (rest + [r])[..|rest|] == rest;
    HasCoreAppend(AgainstLater(pair, a, rest), pair(a, r), c);
  }

  ghost predicate HasAgainst(pair: Pairing, a: Record, rest: seq<Record>, c: Core) {
    exists j :: 0 <= j < |rest| && HasCore(pair(a, rest[j]), c)
  }

  lemma OneMoreAgainst(pair: Pairing, a: Record, rest: seq<Record>, r: Record, c: Core)
    ensures HasAgainst(pair, a, rest + [r], c) <==> HasAgainst(pair, a, rest, c) || HasCore(pair(a, r), c)
  {
    assert (rest + [r])[|rest|] == r;
    if j :| 0 <= j < |rest| && HasCore(pair(a, rest[j]), c) { assert (rest + [r])[j] == rest[j]; }
  }

  lemma {:induction false} InLater(pair: Pairing, a: Record, rest: seq<Record>, c: Core)
    ensures HasCore(AgainstLater(pair, a, rest), c) <==> HasAgainst(pair, a, rest, c)
  {
    if rest == [] {
      HasCoreAppend([], [], c);
    } else {
      var n := |rest| - 1;
      InLater(pair, a, rest[..n], c);
      OneMoreLater(pair, a, rest[..n], rest[n], c);
      OneMoreAgainst(pair, a, rest[..n], rest[n], c);
      assert rest == rest[..n] + [rest[n]];
    }
  }

  /** The finding is reported of the records at two places. */
  ghost predicate ReportedAt(pair: Pairing, records: seq<Record>, c: Core, i: nat, j: nat) {
    i < j < |records| && HasCore(pair(records[i], records[j]), c)
  }

  lemma {:induction false} InAllPairs(pair: Pairing, records: seq<Record>, c: Core)
    ensures HasCore(AllPairs(pair, records), c) <==> exists i: nat, j: nat :: ReportedAt(pair, records, c, i, j)
  {
    if records == [] {
      HasCoreAppend([], [], c);
    } else {
      InAllPairs(pair, records[1..], c);
      InLater(pair, records[0], records[1..], c);
      HasCoreAppend(AgainstLater(pair, records[0], records[1..]), AllPairs(pair, records[1..]), c);
      ReportedFirst(pair, records, c);
    }
  }

  /** Of the first record and a later one, or of two later ones. */
  lemma ReportedFirst(pair: Pairing, records: seq<Record>, c: Core)
    requires records != []
    ensures (exists i: nat, j: nat :: ReportedAt(pair, records, c, i, j)) <==>
            HasAgainst(pair, records[0], records[1..], c)
            || (exists i: nat, j: nat :: ReportedAt(pair, records[1..], c, i, j))
  {
    var rest := records[1..];
    if j :| 0 <= j < |rest| && HasCore(pair(records[0], rest[j]), c) { assert ReportedAt(pair, records, c, 0, j + 1); }
    if i: nat, j: nat :| ReportedAt(pair, rest, c, i, j) { assert ReportedAt(pair, records, c, i + 1, j + 1); }
    if i: nat, j: nat :| ReportedAt(pair, records, c, i, j) {
      if i > 0 { assert ReportedAt(pair, rest, c, i - 1, j - 1); } else { assert rest[j - 1] == records[j]; }
    }
  }

  /** The records at two places have the keyword of the finding in common, and opposed words. */
  ghost predicate OpposedAt(records: seq<Record>, suppressed: set<FindingId>, c: Core, i: nat, j: nat) {
    i < j < |records| && AboutKeyword(records[i], records[j], suppressed, c) && Opposed(records[i].normal, records[j].normal) != {}
  }

  lemma ReportedIsOpposed(records: seq<Record>, suppressed: set<FindingId>, c: Core, i: nat, j: nat)
    requires c.kind == OppositeAssertion
    ensures ReportedAt(Findings(suppressed), records, c, i, j) <==> OpposedAt(records, suppressed, c, i, j)
  {
    if i < j < |records| {
      PairAssertions(records[i], records[j], suppressed, c);
      assert Findings(suppressed)(records[i], records[j]) == PairFindings(records[i], records[j], suppressed);
    }
  }

  /** An opposite assertion is reported exactly when some pair of records has the keyword and opposed words. */
  lemma AssertionsReported(records: seq<Record>, suppressed: set<FindingId>, c: Core)
    requires c.kind == OppositeAssertion
    ensures HasCore(AllPairs(Findings(suppressed), records), c) <==> exists i: nat, j: nat :: OpposedAt(records, suppressed, c, i, j)
  {
    InAllPairs(Findings(suppressed), records, c);
    forall i: nat, j: nat ensures ReportedAt(Findings(suppressed), records, c, i, j) <==> OpposedAt(records, suppressed, c, i, j) {
      ReportedIsOpposed(records, suppressed, c, i, j);
    }
  }

  // ----- Settings

  /** The line has its first sign between the two parts. */
  ghost predicate SplitAt(line: string, sign: char, left: string, right: string) {
    line == left + [sign] + right && sign !in left
  }

  /** The line sets the key at the sign. */
  ghost predicate SetsBy(line: string, sign: char, key: string, value: string) {
    exists left: string, right: string :: SplitAt(line, sign, left, right) && key == Strip(left) && value == Strip(right)
  }

  /** The line sets the key: at its first '=', or at its first ':' if it has no '='. */
  ghost predicate SetsTo(line: string, key: string, value: string) {
    SetsBy(line, '=', key, value) || ('=' !in line && SetsBy(line, ':', key, value))
  }

  lemma {:induction false} IndexOfExact(s: string, c: char)
    ensures var i := IndexOf(s, c); (i == |s| <==> c !in s) && c !in s[..i] && (i < |s| ==> s[i] == c)
  {
    if s != "" && s[0] != c {
      IndexOfExact(s[1..], c);
      assert s == [s[0]] + s[1..];
      assert s[..IndexOf(s, c)] == [s[0]] + s[1..][..IndexOf(s[1..], c)];
    }
  }

  lemma SplitUnique(line: string, sign: char, left: string, right: string)
    ensures SplitAt(line, sign, left, right) <==>
            var i := IndexOf(line, sign); i < |line| && left == line[..i] && right == line[i + 1..]
  {
    IndexOfExact(line, sign);
    var i := IndexOf(line, sign);
    if SplitAt(line, sign, left, right) {
      assert line[|left|] == sign && left == line[..|left|] && right == line[|left| + 1..];
      assert forall k | 0 <= k < |left| :: line[k] == left[k] && left[k] in left;
      assert forall k | 0 <= k < i :: line[k] == line[..i][k] && line[..i][k] in line[..i];
      assert i == |left|;
    }
    if i < |line| { assert line == line[..i] + [sign] + line[i + 1..]; }
  }

  lemma SetsByExact(line: string, sign: char, key: string, value: string)
    ensures var i := IndexOf(line, sign); SetsBy(line, sign, key, value) <==> i < |line| && key == Strip(line[..i]) && value == Strip(line[i + 1..])
  {
    var i := IndexOf(line, sign);
    if i < |line| { SplitUnique(line, sign, line[..i], line[i + 1..]); }
    if left: string, right: string :| SplitAt(line, sign, left, right) && key == Strip(left) && value == Strip(right) {
      SplitUnique(line, sign, left, right);
    }
  }

  /** What `ParseLine` takes from a line. */
  lemma LineExact(line: string, key: string, value: string)
    ensures var eq, colon := IndexOf(line, '='), IndexOf(line, ':');
            SetsTo(line, key, value) <==>
            if eq < |line| then key == Strip(line[..eq]) && value == Strip(line[eq + 1..])
            else colon < |line| && key == Strip(line[..colon]) && value == Strip(line[colon + 1..])
  {
    IndexOfExact(line, '=');
    SetsByExact(line, '=', key, value);
    SetsByExact(line, ':', key, value);
  }

  /** The last line that sets the key sets it to the value. */
  ghost predicate LastSets(lines: seq<string>, key: string, value: string) {
    exists i :: 0 <= i < |lines| && SetsTo(lines[i], key, value) && forall j, v | i < j < |lines| :: !SetsTo(lines[j], key, v)
  }

  ghost predicate NeverSets(lines: seq<string>, key: string) {
    forall i, v | 0 <= i < |lines| :: !SetsTo(lines[i], key, v)
  }

  /** The settings of a text: for each key the value of the last line that sets it. */
  lemma {:induction false} SettingsExact(lines: seq<string>, key: string)
    ensures var at := ParseConfigs(lines).at; if key in at then LastSets(lines, key, at[key]) else NeverSets(lines, key)
  {
    if lines != [] {
      var n := |lines| - 1;
      SettingsExact(lines[..n], key);
      FoldMore(ParseLine, Empty(), lines[..n], lines[n]);
      assert lines == lines[..n] + [lines[n]];
      SettingsStep(ParseConfigs(lines[..n]), lines[..n], lines[n], key);
    }
  }

  lemma SettingsStep(configs: OMap<string>, lines: seq<string>, line: string, key: string)
    requires if key in configs.at then LastSets(lines, key, configs.at[key]) else NeverSets(lines, key)
    ensures var at := ParseLine(configs, line).at; if key in at then LastSets(lines + [line], key, at[key]) else NeverSets(lines + [line], key)
  {
    var before, after := configs.at, ParseLine(configs, line).at;
    forall v ensures SetsTo(line, key, v) ==> key in after && after[key] == v { LineExact(line, key, v); }
    if key in after {
      LineExact(line, key, after[key]);
      if SetsTo(line, key, after[key]) {
        assert (lines + [line])[|lines|] == line;
      } else {
        assert key in before && before[key] == after[key];
        SettingStays(lines, line, key, after[key]);
      }
    } else {
      assert forall i | 0 <= i < |lines| :: (lines + [line])[i] == lines[i];
    }
  }

  lemma SettingStays(lines: seq<string>, line: string, key: string, value: string)
    requires LastSets(lines, key, value) && forall v :: !SetsTo(line, key, v)
    ensures LastSets(lines + [line], key, value)
  {
    var i :| 0 <= i < |lines| && SetsTo(lines[i], key, value) && forall j, v | i < j < |lines| :: !SetsTo(lines[j], key, v);
    assert forall j | 0 <= j < |lines| :: (lines + [line])[j] == lines[j];
    assert SetsTo((lines + [line])[i], key, value);
  }

  /** Both texts set the key of the finding, and in the end to different values. */
  ghost predicate SettingsClash(a: Record, b: Record, suppressed: set<FindingId>, c: Core) {
    && (exists v: string, w: string :: LastSets(a.lines, c.id.detail, v) && LastSets(b.lines, c.id.detail, w) && v != w)
    && c.id == GenerateId(ExclusiveConfig, a.id, b.id, c.id.detail) && c.kind == ExclusiveConfig && c.severity == Critical
    && (c.suppressed <==> c.id in suppressed)
  }

  lemma SetsOnce(line: string, key: string, v: string, w: string)
    requires SetsTo(line, key, v) && SetsTo(line, key, w)
    ensures v == w
  {
    LineExact(line, key, v);
    LineExact(line, key, w);
  }

  lemma LastSetsOnce(lines: seq<string>, key: string, v: string, w: string)
    requires LastSets(lines, key, v) && LastSets(lines, key, w)
    ensures v == w
  {
    var i :| 0 <= i < |lines| && SetsTo(lines[i], key, v) && forall j, u | i < j < |lines| :: !SetsTo(lines[j], key, u);
    var k :| 0 <= k < |lines| && SetsTo(lines[k], key, w) && forall j, u | k < j < |lines| :: !SetsTo(lines[j], key, u);
    assert i == k by {
      assert !(i < k) && !(k < i);
    }
    SetsOnce(lines[i], key, v, w);
  }

  /** The settings of a text hold a value exactly when the last line about the key sets it. */
  lemma HoldsSetting(lines: seq<string>, key: string, v: string)
    ensures LastSets(lines, key, v) <==> key in ParseConfigs(lines).at && ParseConfigs(lines).at[key] == v
  {
    SettingsExact(lines, key);
    if LastSets(lines, key, v) && key in ParseConfigs(lines).at { LastSetsOnce(lines, key, v, ParseConfigs(lines).at[key]); }
  }

  /** A pair has the exclusive-config finding of a key, once, exactly when the texts set it to different values. */
  lemma PairSettings(a: Record, b: Record, suppressed: set<FindingId>, c: Core)
    requires c.kind == ExclusiveConfig
    ensures Cores(PairFindings(a, b, suppressed))[c] == if SettingsClash(a, b, suppressed, c) then 1 else 0
  {
    PairConfigs(a, b, suppressed, c);
    var key := c.id.detail;
    forall v ensures LastSets(a.lines, key, v) <==> key in ParseConfigs(a.lines).at && ParseConfigs(a.lines).at[key] == v { HoldsSetting(a.lines, key, v); }
    forall v ensures LastSets(b.lines, key, v) <==> key in ParseConfigs(b.lines).at && ParseConfigs(b.lines).at[key] == v { HoldsSetting(b.lines, key, v); }
    if Clash(ParseConfigs(a.lines).at, ParseConfigs(b.lines).at, key) {
      assert LastSets(a.lines, key, ParseConfigs(a.lines).at[key]) && LastSets(b.lines, key, ParseConfigs(b.lines).at[key]);
    }
  }

  // ----- Duplicates

  /** The record repeats an id, with another title or content than the first record of that id. */
  ghost predicate ConflictsWithFirst(records: seq<Record>, i: nat) {
    i < |records| && exists j ::
      && 0 <= j < i && records[j].id == records[i].id && (forall k | 0 <= k < j :: records[k].id != records[j].id)
      && (records[j].title != records[i].title || records[j].content != records[i].content)
  }

  ghost function ConflictingIds(records: seq<Record>, id: string): set<nat> {
    set i: nat | i < |records| && records[i].id == id && ConflictsWithFirst(records, i)
  }

  ghost function DuplicateCore(id: string, suppressed: set<FindingId>): Core {
    var finding := FindingId(DuplicateConflicting, id, id, "");
    Core(finding, DuplicateConflicting, Critical, finding in suppressed)
  }

  lemma {:induction false} FirstByIdExact(records: seq<Record>, id: string)
    ensures var m := FirstById(records);
            if id in m then exists j :: 0 <= j < |records| && records[j] == m[id] && m[id].id == id && forall k | 0 <= k < j :: records[k].id != id
            else forall j | 0 <= j < |records| :: records[j].id != id
  {
    if records != [] {
      var n := |records| - 1;
      FirstByIdExact(records[..n], id);
      assert forall j | 0 <= j < n :: records[..n][j] == records[j];
    }
  }

  /** The first record of an id among some records is the first among more. */
  lemma FirstStays(records: seq<Record>, r: Record, j: nat)
    requires j < |records| && forall k | 0 <= k < j :: records[k].id != records[j].id
    ensures (records + [r])[j] == records[j] && forall k | 0 <= k < j :: (records + [r])[k].id != records[j].id
  {
    assert forall k | 0 <= k < |records| :: (records + [r])[k] == records[k];
  }

  lemma ConflictAtEnd(records: seq<Record>, r: Record)
    ensures var seen := FirstById(records);
            ConflictsWithFirst(records + [r], |records|) <==> r.id in seen && (seen[r.id].title != r.title || seen[r.id].content != r.content)
  {
    var seen, more, n := FirstById(records), records + [r], |records|;
    FirstByIdExact(records, r.id);
    if r.id in seen {
      var j :| 0 <= j < n && records[j] == seen[r.id] && seen[r.id].id == r.id && forall k | 0 <= k < j :: records[k].id != r.id;
      FirstStays(records, r, j);
      assert more[n] == r;
      forall i | 0 <= i < n && more[i].id == r.id && (forall k | 0 <= k < i :: more[k].id != more[i].id) ensures i == j {
        assert more[j].id == r.id && !(j < i) && !(i < j);
      }
    } else {
      assert forall i | 0 <= i < n :: more[i] == records[i];
    }
  }

  lemma ConflictBefore(records: seq<Record>, r: Record, i: nat)
    requires i < |records|
    ensures ConflictsWithFirst(records + [r], i) <==> ConflictsWithFirst(records, i)
  {
    assert forall j | 0 <= j < |records| :: (records + [r])[j] == records[j];
  }

  lemma OneMoreConflicting(records: seq<Record>, r: Record, id: string)
    ensures |ConflictingIds(records + [r], id)| ==
            |ConflictingIds(records, id)| + if r.id == id && ConflictsWithFirst(records + [r], |records|) then 1 else 0
  {
    var n, more := |records|, records + [r];
    var before := ConflictingIds(records, id);
    forall i: nat | i < n ensures i in ConflictingIds(more, id) <==> i in before {
      ConflictBefore(records, r, i);
      assert more[i] == records[i];
    }
    assert more[n] == r && n !in before;
    assert ConflictingIds(more, id) == before + if r.id == id && ConflictsWithFirst(more, n) then {n} else {};
  }

  lemma OneMoreDuplicate(records: seq<Record>, r: Record, suppressed: set<FindingId>, id: string)
    ensures var c := DuplicateCore(id, suppressed);
            Cores(DuplicateFindings(records + [r], suppressed))[c] ==
            Cores(DuplicateFindings(records, suppressed))[c] + if r.id == id && ConflictsWithFirst(records + [r], |records|) then 1 else 0
  {
    var seen := FirstById(records);
    var found := GenerateId(DuplicateConflicting, r.id, r.id, "");
    var f := Finding(found, r.id, r.id, DuplicateConflicting, Critical, found in suppressed);
    var last := if r.id in seen && (seen[r.id].title != r.title || seen[r.id].content != r.content) then [f] else [];
    ConflictAtEnd(records, r);
    OneCore(f, DuplicateCore(id, suppressed));
    CoresAppend(DuplicateFindings(records, suppressed), last);
    assert (records + [r])[..|records|] == records;
    assert DuplicateFindings(records + [r], suppressed) == DuplicateFindings(records, suppressed) + last;
  }

  /** A conflicting duplicate is reported of an id as often as a record conflicts with the first of that id. */
  lemma {:induction false} DuplicatesExact(records: seq<Record>, suppressed: set<FindingId>, id: string)
    ensures Cores(DuplicateFindings(records, suppressed))[DuplicateCore(id, suppressed)] == |ConflictingIds(records, id)|
  {
    if records == [] {
      HasCoreAppend([], [], DuplicateCore(id, suppressed));
      assert ConflictingIds(records, id) == {};
    } else {
      var before, r := records[..|records| - 1], records[|records| - 1];
      DuplicatesExact(before, suppressed, id);
      OneMoreConflicting(before, r, id);
      OneMoreDuplicate(before, r, suppressed, id);
      assert records == before + [r];
    }
  }

  // ----- Stripping

  /** What is left is the text without blanks at either end. */
  lemma {:induction false} StripLeftExact(s: string)
    ensures var r := StripLeft(s); |r| <= |s| && r == s[|s| - |r|..] && (forall c | c in s[..|s| - |r|] :: IsBlank(c)) && (r != "" ==> !IsBlank(r[0]))
  {
    if s != "" && IsBlank(s[0]) {
      StripLeftExact(s[1..]);
      var k := |s| - |StripLeft(s)|;
      assert s[..k] == [s[0]] + s[1..][..k - 1];
    }
  }

  lemma {:induction false} StripRightExact(s: string)
    ensures var r := StripRight(s); r <= s && (forall c | c in s[|r|..] :: IsBlank(c)) && (r != "" ==> !IsBlank(r[|r| - 1]))
  {
    if s != "" && IsBlank(s[|s| - 1]) {
      StripRightExact(s[..|s| - 1]);
      var r := StripRight(s);
      assert s[|r|..] == s[..|s| - 1][|r|..] + [s[|s| - 1]];
    }
  }

  ghost predicate AllBlank(s: string) { forall c | c in s :: IsBlank(c) }

  lemma StripParts(s: string) returns (x: string, y: string)
    ensures s == x + Strip(s) + y && AllBlank(x) && AllBlank(y)
  {
    var l, r := StripLeft(s), Strip(s);
    StripLeftExact(s);
    StripRightExact(l);
    x, y := s[..|s| - |l|], l[|r|..];
    assert s == x + l && l == r + y;
    Regroup(x, r, y);
  }

  lemma StripExact(s: string)
    ensures exists x: string, y: string :: s == x + Strip(s) + y && AllBlank(x) && AllBlank(y)
    ensures var r := Strip(s); r != "" ==> !IsBlank(r[0]) && !IsBlank(r[|r| - 1])
  {
    var x, y := StripParts(s);
    StripLeftExact(s);
    StripRightExact(StripLeft(s));
  }
}
