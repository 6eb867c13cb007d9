/** The contradiction detector: pairwise findings do not depend on the order of the records. */
module Contradictions {
  import opened Orders
  import opened OrderedMaps

  datatype Kind = DuplicateConflicting | ExclusiveConfig | OppositeAssertion
  datatype Severity = Warning | Critical

  /** The hash of the kind, the sorted pair of ids and a detail, taken as injective. */
  datatype FindingId = FindingId(kind: Kind, first: string, second: string, detail: string)

  datatype Finding = Finding(
    findingId: FindingId, ruleA: string, ruleB: string, kind: Kind, severity: Severity, suppressed: bool)

  /** `generate_finding_id`: the pair is sorted first. */
  function GenerateId(kind: Kind, a: string, b: string, detail: string): FindingId {
    if StrLe(a, b) then FindingId(kind, a, b, detail) else FindingId(kind, b, a, detail)
  }

  lemma IdSymmetric(kind: Kind, a: string, b: string, detail: string)
    ensures GenerateId(kind, a, b, detail) == GenerateId(kind, b, a, detail)
  {
    StrLeTotal(a, b);
  }

  /** A record, with its content lower-cased and stripped, and the lines of that content. */
  datatype Record = Record(id: string, title: string, content: string, normal: string, lines: seq<string>)

  // ----- Reading settings and keywords

  function IndexOf(s: string, c: char): nat
    ensures IndexOf(s, c) <= |s|
  {
    if s == "" || s[0] == c then 0 else 1 + IndexOf(s[1..], c)
  }

  predicate IsBlank(c: char) { c == ' ' || c == '\t' || c == '\r' || c == '\n' }

  function StripLeft(s: string): string {
    if s != "" && IsBlank(s[0]) then StripLeft(s[1..]) else s
  }

  function StripRight(s: string): string {
    if s != "" && IsBlank(s[|s| - 1]) then StripRight(s[..|s| - 1]) else s
  }

  function Strip(s: string): string { StripRight(StripLeft(s)) }

  /** One line of `parse_configs`: split at the first '=', or else at the first ':'. */
  function ParseLine(configs: OMap<string>, line: string): OMap<string> {
    var eq, colon := IndexOf(line, '='), IndexOf(line, ':');
    if eq < |line| then Set(configs, Strip(line[..eq]), Strip(line[eq + 1..]))
    else if colon < |line| then Set(configs, Strip(line[..colon]), Strip(line[colon + 1..]))
    else configs
  }

  function ParseConfigs(lines: seq<string>): OMap<string> {
    Fold(ParseLine, Empty(), lines)
  }

  predicate Contains(text: string, word: string) {
    word <= text || (text != "" && Contains(text[1..], word))
  }

  const Keywords := ["postgres", "sqlite", "mysql", "pooling", "migration"]

  const Polarities := [("enable", "disable"), ("allow", "forbid"), ("allow", "prohibit"),
                       ("always", "never"), ("use", "avoid"), ("shall", "shall not")]

  predicate Opposite(a: string, b: string, p: (string, string)) {
    (Contains(a, p.0) && Contains(b, p.1)) || (Contains(a, p.1) && Contains(b, p.0))
  }

  // ----- The findings about one pair

  type Settings = map<string, string>

  predicate Clash(ca: Settings, cb: Settings, k: string) {
    k in ca && k in cb && ca[k] != cb[k]
  }

  function ConfigFinding(a: string, b: string, ca: Settings, cb: Settings, k: string, suppressed: set<FindingId>): seq<Finding> {
    var id := GenerateId(ExclusiveConfig, a, b, k);
    if Clash(ca, cb, k) then [Finding(id, a, b, ExclusiveConfig, Critical, id in suppressed)] else []
  }

  function ConfigFindings(a: string, b: string, ca: Settings, cb: Settings, keys: seq<string>, suppressed: set<FindingId>): seq<Finding> {
    if keys == [] then []
    else
      var n := |keys| - 1;
      ConfigFindings(a, b, ca, cb, keys[..n], suppressed) + ConfigFinding(a, b, ca, cb, keys[n], suppressed)
  }

  function PolarityFindings(a: Record, b: Record, word: string, ps: seq<(string, string)>, suppressed: set<FindingId>): seq<Finding> {
    if ps == [] then []
    else
      var n := |ps| - 1;
      var id := GenerateId(OppositeAssertion, a.id, b.id, word);
      PolarityFindings(a, b, word, ps[..n], suppressed) +
      if Opposite(a.normal, b.normal, ps[n])
      then [Finding(id, a.id, b.id, OppositeAssertion, Warning, id in suppressed)] else []
  }

  function AssertionFindings(a: Record, b: Record, words: seq<string>, suppressed: set<FindingId>): seq<Finding> {
    if words == [] then []
    else
      var n := |words| - 1;
      AssertionFindings(a, b, words[..n], suppressed) +
      if Contains(a.normal, words[n]) && Contains(b.normal, words[n])
      then PolarityFindings(a, b, words[n], Polarities, suppressed) else []
  }

  function PairFindings(a: Record, b: Record, suppressed: set<FindingId>): seq<Finding> {
    var ca, cb := ParseConfigs(a.lines), ParseConfigs(b.lines);
    ConfigFindings(a.id, b.id, ca.at, cb.at, ca.keys, suppressed) + AssertionFindings(a, b, Keywords, suppressed)
  }

  // ----- The findings about all pairs i < j, and about duplicates

  type Pairing = (Record, Record) -> seq<Finding>

  function Findings(suppressed: set<FindingId>): Pairing {
    (a, b) => PairFindings(a, b, suppressed)
  }

  function AgainstLater(pair: Pairing, a: Record, rest: seq<Record>): seq<Finding> {
    if rest == [] then []
    else
      var n := |rest| - 1;
      AgainstLater(pair, a, rest[..n]) + pair(a, rest[n])
  }

  function AllPairs(pair: Pairing, records: seq<Record>): seq<Finding> {
    if records == [] then []
    else AgainstLater(pair, records[0], records[1..]) + AllPairs(pair, records[1..])
  }

  /** The first record with each id. */
  function FirstById(records: seq<Record>): map<string, Record> {
    if records == [] then map[]
    else
      var n := |records| - 1;
      var before := FirstById(records[..n]);
      if records[n].id in before then before else before[records[n].id := records[n]]
  }

  function DuplicateFindings(records: seq<Record>, suppressed: set<FindingId>): seq<Finding> {
    if records == [] then []
    else
      var n := |records| - 1;
      var r, seen := records[n], FirstById(records[..n]);
      var id := GenerateId(DuplicateConflicting, r.id, r.id, "");
      DuplicateFindings(records[..n], suppressed) +
      if r.id in seen && (seen[r.id].title != r.title || seen[r.id].content != r.content)
      then [Finding(id, r.id, r.id, DuplicateConflicting, Critical, id in suppressed)] else []
  }

  // ----- `detect`

  method DetectDuplicates(records: seq<Record>, suppressed: set<FindingId>) returns (findings: seq<Finding>)
    ensures findings == DuplicateFindings(records, suppressed)
  {
    findings := [];
    var seen: map<string, Record> := map[];
    for i := 0 to |records|
      invariant findings == DuplicateFindings(records[..i], suppressed) && seen == FirstById(records[..i])
      invariant forall k | k in seen :: seen[k].id == k
    {
      assert records[..i + 1][..i] == records[..i];
      var r := records[i];
      if r.id in seen {
        var existing := seen[r.id];
        if existing.title != r.title || existing.content != r.content {
          var id := GenerateId(DuplicateConflicting, existing.id, r.id, "");
          findings := findings + [Finding(id, existing.id, r.id, DuplicateConflicting, Critical, id in suppressed)];
        }
      } else {
        seen := seen[r.id := r];
      }
    }
    assert records[..|records|] == records;
  }

  method DetectConfigs(a: Record, b: Record, suppressed: set<FindingId>) returns (findings: seq<Finding>)
    ensures var ca, cb := ParseConfigs(a.lines), ParseConfigs(b.lines);
            findings == ConfigFindings(a.id, b.id, ca.at, cb.at, ca.keys, suppressed)
  {
    findings := [];
    var ca, cb := ParseConfigs(a.lines), ParseConfigs(b.lines);
    for i := 0 to |ca.keys|
      invariant findings == ConfigFindings(a.id, b.id, ca.at, cb.at, ca.keys[..i], suppressed)
    {
      assert ca.keys[..i + 1][..i] == ca.keys[..i];
      var key := ca.keys[i];
      if key in ca.at && key in cb.at && ca.at[key] != cb.at[key] {
        var id := GenerateId(ExclusiveConfig, a.id, b.id, key);
        findings := findings + [Finding(id, a.id, b.id, ExclusiveConfig, Critical, id in suppressed)];
      }
    }
    assert ca.keys[..|ca.keys|] == ca.keys;
  }

  method DetectAssertions(a: Record, b: Record, suppressed: set<FindingId>) returns (findings: seq<Finding>)
    ensures findings == AssertionFindings(a, b, Keywords, suppressed)
  {
    findings := [];
    for i := 0 to |Keywords|
      invariant findings == AssertionFindings(a, b, Keywords[..i], suppressed)
    {
      assert Keywords[..i + 1][..i] == Keywords[..i];
      var word := Keywords[i];
      if Contains(a.normal, word) && Contains(b.normal, word) {
        ghost var before := findings;
        for j := 0 to |Polarities|
          invariant findings == before + PolarityFindings(a, b, word, Polarities[..j], suppressed)
        {
          assert Polarities[..j + 1][..j] == Polarities[..j];
          if Opposite(a.normal, b.normal, Polarities[j]) {
            var id := GenerateId(OppositeAssertion, a.id, b.id, word);
            findings := findings + [Finding(id, a.id, b.id, OppositeAssertion, Warning, id in suppressed)];
          }
        }
        assert Polarities[..|Polarities|] == Polarities;
      }
    }
    assert Keywords[..|Keywords|] == Keywords;
  }

  /** The loop over the later records. */
  method DetectLater(a: Record, rest: seq<Record>, suppressed: set<FindingId>) returns (findings: seq<Finding>)
    ensures findings == AgainstLater(Findings(suppressed), a, rest)
  {
    findings := [];
    for j := 0 to |rest|
      invariant findings == AgainstLater(Findings(suppressed), a, rest[..j])
    {
      assert rest[..j + 1][..j] == rest[..j];
      var configs := DetectConfigs(a, rest[j], suppressed);
      var assertions := DetectAssertions(a, rest[j], suppressed);
      findings := findings + (configs + assertions);
    }
    assert rest[..|rest|] == rest;
  }

  /** The loop over all pairs. */
  method DetectPairs(records: seq<Record>, suppressed: set<FindingId>) returns (findings: seq<Finding>)
    ensures findings == AllPairs(Findings(suppressed), records)
  {
    findings := [];
    ghost var pair := Findings(suppressed);
    assert records[0..] == records;
    for i := 0 to |records|
      invariant findings + AllPairs(pair, records[i..]) == AllPairs(pair, records)
    {
      var later := DetectLater(records[i], records[i + 1..], suppressed);
      AllPairsStep(pair, records, i, findings, later);
      findings := findings + later;
    }
    assert records[|records|..] == [];
  }

  /** `detect`: duplicates first, then the pairs in index order. */
  method Detect(records: seq<Record>, suppressed: set<FindingId>) returns (findings: seq<Finding>)
    ensures findings == DuplicateFindings(records, suppressed) + AllPairs(Findings(suppressed), records)
  {
    findings := DetectDuplicates(records, suppressed);
    var pairs := DetectPairs(records, suppressed);
    findings := findings + pairs;
  }

  lemma AllPairsStep(pair: Pairing, records: seq<Record>, i: nat, before: seq<Finding>, later: seq<Finding>)
    requires i < |records| && later == AgainstLater(pair, records[i], records[i + 1..])
    ensures before + AllPairs(pair, records[i..]) == (before + later) + AllPairs(pair, records[i + 1..])
  {
    AllPairsFrom(pair, records, i);
  }

  lemma AllPairsFrom(pair: Pairing, records: seq<Record>, i: nat)
    requires i < |records|
    ensures AllPairs(pair, records[i..]) == AgainstLater(pair, records[i], records[i + 1..]) + AllPairs(pair, records[i + 1..])
  {
    assert records[i..][0] == records[i] && records[i..][1..] == records[i + 1..];
  }

  // ----- What is compared: id, kind, severity and suppression, with multiplicity

  datatype Core = Core(id: FindingId, kind: Kind, severity: Severity, suppressed: bool)

  function CoreOf(f: Finding): Core {
    Core(f.findingId, f.kind, f.severity, f.suppressed)
  }

  ghost function Cores(fs: seq<Finding>): multiset<Core> {
    multiset(Apply(CoreOf, fs))
  }

  lemma CoresAppend(a: seq<Finding>, b: seq<Finding>)
    ensures Cores(a + b) == Cores(a) + Cores(b)
  {
    ApplyAppend(CoreOf, a, b);
  }

  // ----- A pair in either order

  ghost function ConfigCore(a: string, b: string, k: string, suppressed: set<FindingId>): Core {
    var id := GenerateId(ExclusiveConfig, a, b, k);
    Core(id, ExclusiveConfig, Critical, id in suppressed)
  }

  lemma {:induction false} ParseConsistent(configs: OMap<string>, lines: seq<string>)
    requires Consistent(configs)
    ensures Consistent(Fold(ParseLine, configs, lines))
    decreases |lines|
  {
    if lines != [] {
      ParseConsistent(ParseLine(configs, lines[0]), lines[1..]);
    }
  }

  lemma OneConfigCount(a: string, b: string, ca: Settings, cb: Settings, k: string, suppressed: set<FindingId>, c: Core)
    ensures Cores(ConfigFinding(a, b, ca, cb, k, suppressed))[c] ==
            if k == c.id.detail && Clash(ca, cb, k) && c == ConfigCore(a, b, k, suppressed) then 1 else 0
  {
    var fs := ConfigFinding(a, b, ca, cb, k, suppressed);
    if Clash(ca, cb, k) {
      assert fs[..0] == [];
      assert Apply(CoreOf, fs) == [ConfigCore(a, b, k, suppressed)];
    }
  }

  /** How often a core is found among some keys: once if it is that of a clashing key. */
  lemma {:induction false} ConfigCount(a: string, b: string, ca: Settings, cb: Settings, keys: seq<string>, suppressed: set<FindingId>, c: Core)
    requires NoDup(keys)
    ensures var k := c.id.detail;
            Cores(ConfigFindings(a, b, ca, cb, keys, suppressed))[c] ==
            if k in keys && Clash(ca, cb, k) && c == ConfigCore(a, b, k, suppressed) then 1 else 0
  {
    if keys != [] {
      var n := |keys| - 1;
      ConfigCount(a, b, ca, cb, keys[..n], suppressed, c);
      LastOfNoDup(keys, c.id.detail);
      OneConfigCount(a, b, ca, cb, keys[n], suppressed, c);
      CoresAppend(ConfigFindings(a, b, ca, cb, keys[..n], suppressed), ConfigFinding(a, b, ca, cb, keys[n], suppressed));
    }
  }

  lemma LastOfNoDup(keys: seq<string>, k: string)
    requires NoDup(keys) && keys != []
    ensures NoDup(keys[..|keys| - 1]) && keys[|keys| - 1] !in keys[..|keys| - 1]
    ensures k in keys <==> k in keys[..|keys| - 1] || k == keys[|keys| - 1]
  {
    assert keys == keys[..|keys| - 1] + [keys[|keys| - 1]];
  }

  /** The exclusive-config findings of a pair: one for each shared key with differing values. */
  lemma ConfigFindingsExact(a: Record, b: Record, suppressed: set<FindingId>, c: Core)
    ensures var ca, cb := ParseConfigs(a.lines), ParseConfigs(b.lines);
            Cores(ConfigFindings(a.id, b.id, ca.at, cb.at, ca.keys, suppressed))[c] ==
            if Clash(ca.at, cb.at, c.id.detail) && c == ConfigCore(a.id, b.id, c.id.detail, suppressed) then 1 else 0
  {
    ParseConsistent(Empty(), a.lines);
    var ca, cb := ParseConfigs(a.lines), ParseConfigs(b.lines);
    ConfigCount(a.id, b.id, ca.at, cb.at, ca.keys, suppressed, c);
  }

  lemma ConfigsSymmetric(a: Record, b: Record, suppressed: set<FindingId>)
    ensures var ca, cb := ParseConfigs(a.lines), ParseConfigs(b.lines);
            Cores(ConfigFindings(a.id, b.id, ca.at, cb.at, ca.keys, suppressed)) ==
            Cores(ConfigFindings(b.id, a.id, cb.at, ca.at, cb.keys, suppressed))
  {
    var ca, cb := ParseConfigs(a.lines), ParseConfigs(b.lines);
    var x := ConfigFindings(a.id, b.id, ca.at, cb.at, ca.keys, suppressed);
    var y := ConfigFindings(b.id, a.id, cb.at, ca.at, cb.keys, suppressed);
    forall c ensures Cores(x)[c] == Cores(y)[c] {
      ConfigFindingsExact(a, b, suppressed, c);
      ConfigFindingsExact(b, a, suppressed, c);
      IdSymmetric(ExclusiveConfig, a.id, b.id, c.id.detail);
    }
  }

  lemma {:induction false} PolaritiesSymmetric(a: Record, b: Record, word: string, ps: seq<(string, string)>, suppressed: set<FindingId>)
    ensures Apply(CoreOf, PolarityFindings(a, b, word, ps, suppressed)) == Apply(CoreOf, PolarityFindings(b, a, word, ps, suppressed))
  {
    if ps != [] {
      var n := |ps| - 1;
      PolaritiesSymmetric(a, b, word, ps[..n], suppressed);
      IdSymmetric(OppositeAssertion, a.id, b.id, word);
      var x, y := PolarityFindings(a, b, word, ps[..n], suppressed), PolarityFindings(b, a, word, ps[..n], suppressed);
      if Opposite(a.normal, b.normal, ps[n]) {
        var id := GenerateId(OppositeAssertion, a.id, b.id, word);
        ApplyAppend(CoreOf, x, [Finding(id, a.id, b.id, OppositeAssertion, Warning, id in suppressed)]);
        ApplyAppend(CoreOf, y, [Finding(id, b.id, a.id, OppositeAssertion, Warning, id in suppressed)]);
      } else {
        assert x + [] == x && y + [] == y;
      }
    }
  }

  lemma {:induction false} AssertionsSymmetric(a: Record, b: Record, words: seq<string>, suppressed: set<FindingId>)
    ensures Apply(CoreOf, AssertionFindings(a, b, words, suppressed)) == Apply(CoreOf, AssertionFindings(b, a, words, suppressed))
  {
    if words != [] {
      var n := |words| - 1;
      AssertionsSymmetric(a, b, words[..n], suppressed);
      var x, y := AssertionFindings(a, b, words[..n], suppressed), AssertionFindings(b, a, words[..n], suppressed);
      assert x + [] == x && y + [] == y;
      if Contains(a.normal, words[n]) && Contains(b.normal, words[n]) {
        PolaritiesSymmetric(a, b, words[n], Polarities, suppressed);
        ApplyAppend(CoreOf, x, PolarityFindings(a, b, words[n], Polarities, suppressed));
        ApplyAppend(CoreOf, y, PolarityFindings(b, a, words[n], Polarities, suppressed));
      }
    }
  }

  lemma PairSymmetric(a: Record, b: Record, suppressed: set<FindingId>)
    ensures Cores(PairFindings(a, b, suppressed)) == Cores(PairFindings(b, a, suppressed))
  {
    ConfigsSymmetric(a, b, suppressed);
    AssertionsSymmetric(a, b, Keywords, suppressed);
    var ca, cb := ParseConfigs(a.lines), ParseConfigs(b.lines);
    CoresAppend(ConfigFindings(a.id, b.id, ca.at, cb.at, ca.keys, suppressed), AssertionFindings(a, b, Keywords, suppressed));
    CoresAppend(ConfigFindings(b.id, a.id, cb.at, ca.at, cb.keys, suppressed), AssertionFindings(b, a, Keywords, suppressed));
  }

  // ----- Permutations

  ghost predicate Symmetric(pair: Pairing) {
    forall a, b :: Cores(pair(a, b)) == Cores(pair(b, a))
  }

  lemma {:induction false} LaterAppend(pair: Pairing, a: Record, xs: seq<Record>, ys: seq<Record>)
    ensures AgainstLater(pair, a, xs + ys) == AgainstLater(pair, a, xs) + AgainstLater(pair, a, ys)
  {
    if ys == [] {
      assert xs + ys == xs;
    } else {
      var n := |ys| - 1;
      LaterAppend(pair, a, xs, ys[..n]);
      assert (xs + ys)[..|xs| + n] == xs + ys[..n];
      var l, m, p := AgainstLater(pair, a, xs), AgainstLater(pair, a, ys[..n]), pair(a, ys[n]);
      assert AgainstLater(pair, a, xs + ys) == (l + m) + p == l + (m + p);
    }
  }

  /** Moving a record to the front keeps the cores of all pairs. */
  lemma {:induction false} MoveToFront(pair: Pairing, xs: seq<Record>, r: Record, ys: seq<Record>)
    requires Symmetric(pair)
    ensures Cores(AllPairs(pair, xs + [r] + ys)) ==
            Cores(AgainstLater(pair, r, xs + ys)) + Cores(AllPairs(pair, xs + ys))
  {
    if xs == [] {
      assert xs + [r] + ys == [r] + ys && xs + ys == ys;
      FirstAgainstLater(pair, r, ys);
    } else {
      MoveToFront(pair, xs[1..], r, ys);
      MoveOver(pair, xs[0], xs[1..], r, ys);
      HeadAndTail(xs);
    }
  }

  lemma HeadAndTail(xs: seq<Record>)
    requires xs != []
    ensures [xs[0]] + xs[1..] == xs
  {
  }

  /** The step of the induction: moving `r` over `x`. */
  lemma MoveOver(pair: Pairing, x: Record, rest: seq<Record>, r: Record, ys: seq<Record>)
    requires Symmetric(pair)
    requires Cores(AllPairs(pair, rest + [r] + ys)) ==
             Cores(AgainstLater(pair, r, rest + ys)) + Cores(AllPairs(pair, rest + ys))
    ensures Cores(AllPairs(pair, [x] + rest + [r] + ys)) ==
            Cores(AgainstLater(pair, r, [x] + rest + ys)) + Cores(AllPairs(pair, [x] + rest + ys))
  {
    FirstAgainstLater(pair, x, rest + [r] + ys);
    FirstAgainstLater(pair, x, rest + ys);
    LaterInsert(pair, x, rest, r, ys);
    LaterFirst(pair, r, x, rest + ys);
    assert Cores(pair(x, r)) == Cores(pair(r, x));
    RegroupRecords(x, rest, r, ys);
  }

  lemma RegroupRecords(x: Record, rest: seq<Record>, r: Record, ys: seq<Record>)
    ensures [x] + rest + [r] + ys == [x] + (rest + [r] + ys)
    ensures [x] + rest + ys == [x] + (rest + ys)
  {
  }

  lemma FirstAgainstLater(pair: Pairing, x: Record, rest: seq<Record>)
    ensures Cores(AllPairs(pair, [x] + rest)) == Cores(AgainstLater(pair, x, rest)) + Cores(AllPairs(pair, rest))
  {
    assert ([x] + rest)[1..] == rest;
    CoresAppend(AgainstLater(pair, x, rest), AllPairs(pair, rest));
  }

  lemma LaterInsert(pair: Pairing, x: Record, rest: seq<Record>, r: Record, ys: seq<Record>)
    ensures Cores(AgainstLater(pair, x, rest + [r] + ys)) ==
            Cores(AgainstLater(pair, x, rest + ys)) + Cores(pair(x, r))
  {
    LaterAppend(pair, x, rest + [r], ys);
    LaterAppend(pair, x, rest, [r]);
    LaterAppend(pair, x, rest, ys);
    var a, b, c := AgainstLater(pair, x, rest), AgainstLater(pair, x, [r]), AgainstLater(pair, x, ys);
    assert b == pair(x, r) by { assert [r][..0] == []; }
    CoresAppend(a + b, c);
    CoresAppend(a, b);
    CoresAppend(a, c);
  }

  lemma LaterFirst(pair: Pairing, r: Record, x: Record, rest: seq<Record>)
    ensures Cores(AgainstLater(pair, r, [x] + rest)) ==
            Cores(pair(r, x)) + Cores(AgainstLater(pair, r, rest))
  {
    LaterAppend(pair, r, [x], rest);
    assert AgainstLater(pair, r, [x]) == pair(r, x) by { assert [x][..0] == []; }
    CoresAppend(AgainstLater(pair, r, [x]), AgainstLater(pair, r, rest));
  }

  lemma {:induction false} LaterPermuted(pair: Pairing, a: Record, xs: seq<Record>, ys: seq<Record>)
    requires multiset(xs) == multiset(ys)
    ensures Cores(AgainstLater(pair, a, xs)) == Cores(AgainstLater(pair, a, ys))
  {
    if xs == [] {
      assert |multiset(ys)| == |ys|;
      assert ys == [];
    } else {
      var x, rest := xs[0], xs[1..];
      var i := Occurrence(xs, ys);
      assert xs == [x] + rest && ys == ys[..i] + [x] + ys[i + 1..];
      LaterPermuted(pair, a, rest, ys[..i] + ys[i + 1..]);
      LaterFirst(pair, a, x, rest);
      LaterInsert(pair, a, ys[..i], x, ys[i + 1..]);
    }
  }

  /** Where the first item of a list is in a permutation of the list; without it, both stay permutations. */
  lemma Occurrence(xs: seq<Record>, ys: seq<Record>) returns (i: nat)
    requires xs != [] && multiset(xs) == multiset(ys)
    ensures i < |ys| && ys[i] == xs[0] && multiset(xs[1..]) == multiset(ys[..i] + ys[i + 1..])
  {
    assert xs[0] in multiset(ys);
    i :| 0 <= i < |ys| && ys[i] == xs[0];
    WithoutOne(xs, 0);
    assert xs[..0] + xs[1..] == xs[1..];
    WithoutOne(ys, i);
  }

  lemma WithoutOne(xs: seq<Record>, i: nat)
    requires i < |xs|
    ensures multiset(xs[..i] + xs[i + 1..]) == multiset(xs) - multiset{xs[i]}
  {
    assert xs == xs[..i] + [xs[i]] + xs[i + 1..];
  }

  lemma {:induction false} PairsPermuted(pair: Pairing, xs: seq<Record>, ys: seq<Record>)
    requires Symmetric(pair)
    requires multiset(xs) == multiset(ys)
    ensures Cores(AllPairs(pair, xs)) == Cores(AllPairs(pair, ys))
  {
    if xs == [] {
      assert |multiset(ys)| == |ys|;
      assert ys == [];
    } else {
      var i := Occurrence(xs, ys);
      var without := ys[..i] + ys[i + 1..];
      assert ys == ys[..i] + [xs[0]] + ys[i + 1..];
      PairsPermuted(pair, xs[1..], without);
      LaterPermuted(pair, xs[0], xs[1..], without);
      FirstAgainstLater(pair, xs[0], xs[1..]);
      assert xs == [xs[0]] + xs[1..];
      MoveToFront(pair, ys[..i], xs[0], ys[i + 1..]);
    }
  }

  lemma FindingsSymmetric(suppressed: set<FindingId>)
    ensures Symmetric(Findings(suppressed))
  {
    forall a, b ensures Cores(Findings(suppressed)(a, b)) == Cores(Findings(suppressed)(b, a)) {
      PairSymmetric(a, b, suppressed);
    }
  }

  /**
   The pairwise findings, compared by id, kind, severity and suppression, are the same for every
   order of the records.
   */
  lemma FindingsPermuted(xs: seq<Record>, ys: seq<Record>, suppressed: set<FindingId>)
    requires multiset(xs) == multiset(ys)
    ensures Cores(AllPairs(Findings(suppressed), xs)) == Cores(AllPairs(Findings(suppressed), ys))
  {
    FindingsSymmetric(suppressed);
    PairsPermuted(Findings(suppressed), xs, ys);
  }

  // ----- Which exclusive-config findings there are

  lemma {:induction false} PolarityKinds(a: Record, b: Record, word: string, ps: seq<(string, string)>, suppressed: set<FindingId>, f: Finding)
    requires f in PolarityFindings(a, b, word, ps, suppressed)
    ensures f.kind == OppositeAssertion
  {
    var before := PolarityFindings(a, b, word, ps[..|ps| - 1], suppressed);
    if f in before {
      PolarityKinds(a, b, word, ps[..|ps| - 1], suppressed, f);
    }
  }

  lemma {:induction false} AssertionKinds(a: Record, b: Record, words: seq<string>, suppressed: set<FindingId>, f: Finding)
    requires f in AssertionFindings(a, b, words, suppressed)
    ensures f.kind == OppositeAssertion
  {
    var n := |words| - 1;
    if f in AssertionFindings(a, b, words[..n], suppressed) {
      AssertionKinds(a, b, words[..n], suppressed, f);
    } else {
      PolarityKinds(a, b, words[n], Polarities, suppressed, f);
    }
  }

  lemma NoConfigAmongAssertions(a: Record, b: Record, suppressed: set<FindingId>, c: Core)
    requires c.kind == ExclusiveConfig
    ensures Cores(AssertionFindings(a, b, Keywords, suppressed))[c] == 0
  {
    var fs := AssertionFindings(a, b, Keywords, suppressed);
    var cores := Apply(CoreOf, fs);
    if c in cores {
      var i :| 0 <= i < |cores| && cores[i] == c;
      ApplyAt(CoreOf, fs, i);
      AssertionKinds(a, b, Keywords, suppressed, fs[i]);
      assert false;
    }
  }

  /** A pair has an exclusive-config finding, and only one, for each shared key with differing values. */
  lemma PairConfigs(a: Record, b: Record, suppressed: set<FindingId>, c: Core)
    requires c.kind == ExclusiveConfig
    ensures Cores(PairFindings(a, b, suppressed))[c] == if ConfigClash(a, b, suppressed, c) then 1 else 0
  {
    ConfigFindingsExact(a, b, suppressed, c);
    NoConfigAmongAssertions(a, b, suppressed, c);
    var ca, cb := ParseConfigs(a.lines), ParseConfigs(b.lines);
    CoresAppend(ConfigFindings(a.id, b.id, ca.at, cb.at, ca.keys, suppressed), AssertionFindings(a, b, Keywords, suppressed));
  }

  /** `c` is the finding of a key that both records set, to different values. */
  ghost predicate ConfigClash(a: Record, b: Record, suppressed: set<FindingId>, c: Core) {
    Clash(ParseConfigs(a.lines).at, ParseConfigs(b.lines).at, c.id.detail) &&
    c == ConfigCore(a.id, b.id, c.id.detail, suppressed)
  }

  type Relation = (Record, Record) -> bool

  /** The pairs of `i` and a later record before `m` that is chosen. */
  ghost function Chosen(records: seq<Record>, q: Record -> bool, i: nat, m: nat): set<(nat, nat)>
    requires i < m <= |records|
  {
    set j: nat | i < j < m && q(records[j]) :: (i, j)
  }

  /** The pairs from record `k` on that are so related. */
  ghost function RelatedFrom(records: seq<Record>, p: Relation, k: nat): set<(nat, nat)> {
    set i: nat, j: nat | k <= i < j < |records| && p(records[i], records[j]) :: (i, j)
  }

  /** `count` counts the chosen records. */
  ghost predicate Counts(count: seq<Record> -> nat, q: Record -> bool) {
    count([]) == 0 && forall xs, x :: count(xs + [x]) == count(xs) + if q(x) then 1 else 0
  }

  lemma OneMoreChosen(records: seq<Record>, q: Record -> bool, i: nat, n: nat)
    requires i < n < |records|
    ensures |Chosen(records, q, i, n + 1)| == |Chosen(records, q, i, n)| + if q(records[n]) then 1 else 0
  {
    var before, after := Chosen(records, q, i, n), Chosen(records, q, i, n + 1);
    assert after == before + (if q(records[n]) then {(i, n)} else {}) && (i, n) !in before;
  }

  lemma {:induction false} CountSlice(count: seq<Record> -> nat, q: Record -> bool, records: seq<Record>, i: nat, m: nat)
    requires Counts(count, q) && i < m <= |records|
    ensures count(records[i + 1..m]) == |Chosen(records, q, i, m)|
  {
    if m == i + 1 {
      assert Chosen(records, q, i, m) == {} && records[i + 1..m] == [];
    } else {
      OneMoreChosen(records, q, i, m - 1);
      CountSlice(count, q, records, i, m - 1);
      assert records[i + 1..m] == records[i + 1..m - 1] + [records[m - 1]];
    }
  }

  /** Related pairs have the core once, others do not have it. */
  ghost predicate CountsOnce(pair: Pairing, c: Core, p: Relation) {
    forall a, b :: Cores(pair(a, b))[c] == if p(a, b) then 1 else 0
  }

  ghost function CountAgainst(pair: Pairing, a: Record, c: Core): seq<Record> -> nat {
    rest => Cores(AgainstLater(pair, a, rest))[c]
  }

  lemma LaterCounts(pair: Pairing, c: Core, p: Relation, a: Record)
    requires CountsOnce(pair, c, p)
    ensures Counts(CountAgainst(pair, a, c), b => p(a, b))
  {
    var count := CountAgainst(pair, a, c);
    forall xs, x ensures count(xs + [x]) == count(xs) + if p(a, x) then 1 else 0 { LaterSnoc(pair, a, xs, x, c); }
  }

  lemma LaterSnoc(pair: Pairing, a: Record, xs: seq<Record>, x: Record, c: Core)
    ensures Cores(AgainstLater(pair, a, xs + [x]))[c] == Cores(AgainstLater(pair, a, xs))[c] + Cores(pair(a, x))[c]
  {
    assert (xs + [x])[..|xs|] == xs;
    CoresAppend(AgainstLater(pair, a, xs), pair(a, x));
  }

  lemma SplitRelated(records: seq<Record>, p: Relation, k: nat)
    requires k < |records|
    ensures |RelatedFrom(records, p, k)| == |Chosen(records, b => p(records[k], b), k, |records|)| + |RelatedFrom(records, p, k + 1)|
  {
    var first, later := Chosen(records, b => p(records[k], b), k, |records|), RelatedFrom(records, p, k + 1);
    assert RelatedFrom(records, p, k) == first + later && first !! later;
  }

  lemma CountFirst(pair: Pairing, c: Core, p: Relation, records: seq<Record>, k: nat)
    requires CountsOnce(pair, c, p) && k < |records|
    ensures Cores(AgainstLater(pair, records[k], records[k + 1..]))[c] == |Chosen(records, b => p(records[k], b), k, |records|)|
  {
    LaterCounts(pair, c, p, records[k]);
    CountSlice(CountAgainst(pair, records[k], c), b => p(records[k], b), records, k, |records|);
    assert records[k + 1..|records|] == records[k + 1..];
  }

  lemma {:induction false} CountFrom(pair: Pairing, c: Core, p: Relation, records: seq<Record>, k: nat)
    requires CountsOnce(pair, c, p) && k <= |records|
    ensures Cores(AllPairs(pair, records[k..]))[c] == |RelatedFrom(records, p, k)|
    decreases |records| - k
  {
    if k == |records| {
      assert RelatedFrom(records, p, k) == {};
    } else {
      SplitRelated(records, p, k);
      CountFrom(pair, c, p, records, k + 1);
      CountFirst(pair, c, p, records, k);
      AllPairsFrom(pair, records, k);
      CoresAppend(AgainstLater(pair, records[k], records[k + 1..]), AllPairs(pair, records[k + 1..]));
    }
  }

  ghost function ClashOver(suppressed: set<FindingId>, c: Core): Relation {
    (a, b) => ConfigClash(a, b, suppressed, c)
  }

  lemma ConfigsCountOnce(suppressed: set<FindingId>, c: Core)
    requires c.kind == ExclusiveConfig
    ensures CountsOnce(Findings(suppressed), c, ClashOver(suppressed, c))
  {
    forall a, b ensures Cores(Findings(suppressed)(a, b))[c] == if ClashOver(suppressed, c)(a, b) then 1 else 0 {
      PairConfigs(a, b, suppressed, c);
    }
  }

  /** An exclusive-config finding comes as often as there are pairs i < j with a shared key of differing values behind it. */
  lemma ConfigFindingsOfAll(records: seq<Record>, suppressed: set<FindingId>, c: Core)
    requires c.kind == ExclusiveConfig
    ensures Cores(AllPairs(Findings(suppressed), records))[c] == |RelatedFrom(records, ClashOver(suppressed, c), 0)|
  {
    ConfigsCountOnce(suppressed, c);
    CountFrom(Findings(suppressed), c, ClashOver(suppressed, c), records, 0);
    assert records[0..] == records;
  }
}
