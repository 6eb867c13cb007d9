/** The governance projection: rules kept in key order, and the same after a snapshot in between. */
module Governance {
  import opened Wrappers
  import opened Orders
  import opened OrderedMaps

  datatype RuleCategory = NextAction | KnowledgeGap | Risk | Optimization | FollowUp
  datatype RuleSeverity = Info | Warning | Critical
  datatype RuleAction = Notify | Block | Suggest | Log

  datatype Rule = Rule(
    id: string, version: int, description: string, severity: RuleSeverity, action: RuleAction,
    categories: Option<set<RuleCategory>>, minimumPriority: Option<real>, severities: Option<set<RuleSeverity>>,
    enabled: bool)

  type RuleKey = (string, int)

  function KeyOf(r: Rule): RuleKey { (r.id, r.version) }

  // ----- A rule as JSON

  datatype RuleRow = RuleRow(
    id: string, version: int, description: string, severity: string, action: string,
    categories: Option<seq<string>>, minimumPriority: Option<real>, severities: Option<seq<string>>, enabled: bool)

  function SeverityName(s: RuleSeverity): string {
    match s case Info => "info" case Warning => "warning" case Critical => "critical"
  }

  function ActionName(a: RuleAction): string {
    match a case Notify => "notify" case Block => "block" case Suggest => "suggest" case Log => "log"
  }

  function CategoryName(c: RuleCategory): string {
    match c
    case NextAction => "next_action"
    case KnowledgeGap => "knowledge_gap"
    case Risk => "risk"
    case Optimization => "optimization"
    case FollowUp => "follow_up"
  }

  /** Parsing an enum value; `None` is the exception. */
  function ParseSeverity(s: string): Option<RuleSeverity> {
    if s == "info" then Some(Info) else if s == "warning" then Some(Warning)
    else if s == "critical" then Some(Critical) else None
  }

  function ParseAction(s: string): Option<RuleAction> {
    if s == "notify" then Some(Notify) else if s == "block" then Some(Block)
    else if s == "suggest" then Some(Suggest) else if s == "log" then Some(Log) else None
  }

  function ParseCategory(s: string): Option<RuleCategory> {
    if s == "next_action" then Some(NextAction) else if s == "knowledge_gap" then Some(KnowledgeGap)
    else if s == "risk" then Some(Risk) else if s == "optimization" then Some(Optimization)
    else if s == "follow_up" then Some(FollowUp) else None
  }

  /** A set comprehension over parsed values. */
  function ParseSet<T>(parse: string -> Option<T>, names: seq<string>): Option<set<T>> {
    if names == [] then Some({})
    else
      var n := |names| - 1;
      var rest, last := ParseSet(parse, names[..n]), parse(names[n]);
      if rest.Some? && last.Some? then Some(rest.value + {last.value}) else None
  }

  function ParseOptional<T>(parse: string -> Option<T>, names: Option<seq<string>>): Option<Option<set<T>>> {
    match names
    case None => Some(None)
    case Some(ns) => var s := ParseSet(parse, ns); if s.Some? then Some(Some(s.value)) else None
  }

  function ParseRow(row: RuleRow): Option<Rule> {
    var severity, action := ParseSeverity(row.severity), ParseAction(row.action);
    var categories := ParseOptional(ParseCategory, row.categories);
    var severities := ParseOptional(ParseSeverity, row.severities);
    if severity.Some? && action.Some? && categories.Some? && severities.Some? then
      Some(Rule(row.id, row.version, row.description, severity.value, action.value,
                categories.value, row.minimumPriority, severities.value, row.enabled))
    else None
  }

  // ----- Events

  /** The payload of a created or updated rule; everything is optional. */
  datatype RulePayload = RulePayload(
    id: Option<string>, version: Option<int>, description: Option<string>, severity: Option<string>, action: Option<string>,
    categories: Option<seq<string>>, minimumPriority: Option<real>, severities: Option<seq<string>>, enabled: Option<bool>)

  /** `_parse_rule`, with its defaults; `None` is the exception for a missing id or an invalid enum value. */
  function ParseRule(p: RulePayload): Option<Rule> {
    if p.id.None? then None
    else ParseRow(RuleRow(p.id.value, p.version.GetOr(1), p.description.GetOr(""), p.severity.GetOr("warning"),
                          p.action.GetOr("notify"), p.categories, p.minimumPriority, p.severities, p.enabled.GetOr(true)))
  }

  datatype RuleEvent =
    | RuleSet(payload: RulePayload)                         // created or updated
    | RuleDeleted(ruleId: Option<string>, version: int)     // version 1 if the payload has none
    | OtherEvent

  datatype NumberedEvent = NumberedEvent(sequence: int, event: RuleEvent)

  // ----- The plain map of rules

  type Rules = map<RuleKey, Rule>

  function StepRules(m: Rules, e: NumberedEvent): Rules {
    match e.event
    case RuleSet(payload) => var r := ParseRule(payload); if r.Some? then m[KeyOf(r.value) := r.value] else m
    case RuleDeleted(id, version) => if id.Some? && id.value != "" then m - {(id.value, version)} else m
    case OtherEvent => m
  }

  /** The event raises no exception. */
  predicate Parses(e: NumberedEvent) {
    e.event.RuleSet? ==> ParseRule(e.event.payload).Some?
  }

  /** The events before the first that raises, or all of them. */
  function Processed(events: seq<NumberedEvent>): (r: seq<NumberedEvent>)
    ensures r <= events && forall e | e in r :: Parses(e)
    ensures |r| < |events| ==> !Parses(events[|r|])
  {
    if events == [] then []
    else
      var n := |events| - 1;
      var before := Processed(events[..n]);
      if |before| == n && Parses(events[n]) then events else before
  }

  function StepSequence(n: int, e: NumberedEvent): int {
    if e.sequence > n then e.sequence else n
  }

  /** The rules of a list by key; the last of a key counts. */
  function RuleMap(rules: seq<Rule>): Rules {
    if rules == [] then map[]
    else RuleMap(rules[..|rules| - 1])[KeyOf(rules[|rules| - 1]) := rules[|rules| - 1]]
  }

  ghost predicate KeyedRules(m: Rules) {
    forall k | k in m :: KeyOf(m[k]) == k
  }

  lemma {:induction false} RuleMapKeyed(rules: seq<Rule>)
    ensures KeyedRules(RuleMap(rules))
    ensures forall k :: k in RuleMap(rules) <==> exists r :: r in rules && KeyOf(r) == k
    ensures forall r | r in RuleMap(rules).Values :: r in rules
  {
    if rules != [] {
      var n := |rules| - 1;
      RuleMapKeyed(rules[..n]);
      assert rules == rules[..n] + [rules[n]];
    }
  }

  lemma {:induction false} FoldKeyed(m: Rules, events: seq<NumberedEvent>)
    requires KeyedRules(m)
    ensures KeyedRules(Fold(StepRules, m, events))
    decreases |events|
  {
    if events != [] {
      FoldKeyed(StepRules(m, events[0]), events[1..]);
    }
  }

  // ----- The rules, from the events

  /** The event sets or deletes the rule with this key. */
  function AboutRule(k: RuleKey): NumberedEvent -> bool {
    (e: NumberedEvent) =>
      match e.event
      case RuleSet(payload) => ParseRule(payload).Some? && payload.id == Some(k.0) && payload.version.GetOr(1) == k.1
      case RuleDeleted(id, version) => id == Some(k.0) && version == k.1 && k.0 != ""
      case OtherEvent => false
  }

  /** A rule is there exactly when the last event about it sets it, and then as that event says, or when no event is about it and it was there. */
  lemma {:induction false} RulesByEvents(m: Rules, events: seq<NumberedEvent>, k: RuleKey)
    ensures var r, last := Fold(StepRules, m, events), LastIndex(events, AboutRule(k));
            if last.None? then (k in r <==> k in m) && (k in r ==> r[k] == m[k])
            else if events[last.value].event.RuleSet? then k in r && Some(r[k]) == ParseRule(events[last.value].event.payload)
            else k !in r
  {
    if events != [] {
      var n := |events| - 1;
      RulesByEvents(m, events[..n], k);
      FoldMore(StepRules, m, events[..n], events[n]);
      assert events == events[..n] + [events[n]];
      ParsedKey(events[n]);
    }
  }

  lemma ParsedKey(e: NumberedEvent)
    ensures e.event.RuleSet? && ParseRule(e.event.payload).Some? ==>
              var p := e.event.payload; p.id.Some? && KeyOf(ParseRule(p).value) == (p.id.value, p.version.GetOr(1))
  {
  }

  /** What a payload parses to: the id it must have, a default for what it lacks, and the enum values by their names. */
  lemma ParseRuleExact(p: RulePayload)
    ensures ParseRule(p).Some? ==>
              var r := ParseRule(p).value;
              && p.id == Some(r.id) && r.version == p.version.GetOr(1) && r.description == p.description.GetOr("")
              && r.minimumPriority == p.minimumPriority && r.enabled == p.enabled.GetOr(true)
              && r.severity == (match p.severity.GetOr("warning") case "info" => Info case "critical" => Critical case _ => Warning)
              && r.action == (match p.action.GetOr("notify") case "block" => Block case "suggest" => Suggest case "log" => Log case _ => Notify)
              && (r.categories.None? <==> p.categories.None?) && (r.severities.None? <==> p.severities.None?)
    ensures ParseRule(p).Some? <==>
              && p.id.Some? && p.severity.GetOr("warning") in ["info", "warning", "critical"]
              && p.action.GetOr("notify") in ["notify", "block", "suggest", "log"]
              && (p.categories.Some? ==> ParseSet(ParseCategory, p.categories.value).Some?)
              && (p.severities.Some? ==> ParseSet(ParseSeverity, p.severities.value).Some?)
  {
  }

  /** A set parses to the parsed values, if all of them parse. */
  lemma {:induction false} ParseSetExact<T>(parse: string -> Option<T>, names: seq<string>)
    ensures var r := ParseSet(parse, names);
            && (r.Some? <==> forall n | n in names :: parse(n).Some?)
            && (r.Some? ==> forall x :: x in r.value <==> exists n :: n in names && parse(n) == Some(x))
  {
    if names != [] {
      ParseSetExact(parse, names[..|names| - 1]);
      assert names == names[..|names| - 1] + [names[|names| - 1]];
    }
  }

  // ----- Order on keys

  /** Python's order on tuples. */
  predicate KeyLeq(a: RuleKey, b: RuleKey) {
    if a.0 == b.0 then a.1 <= b.1 else StrLe(a.0, b.0)
  }

  predicate RuleLeq(a: Rule, b: Rule) { KeyLeq(KeyOf(a), KeyOf(b)) }

  lemma KeyOrder()
    ensures TotalPreorder(KeyLeq) && Antisymmetric(KeyLeq)
  {
    forall a: RuleKey, b: RuleKey ensures (KeyLeq(a, b) || KeyLeq(b, a)) && (KeyLeq(a, b) && KeyLeq(b, a) ==> a == b) {
      StrLeTotal(a.0, b.0);
    }
    forall a: RuleKey, b: RuleKey, c: RuleKey | KeyLeq(a, b) && KeyLeq(b, c) ensures KeyLeq(a, c) {
      if a.0 != b.0 && b.0 != c.0 {
        StrLeTransitive(a.0, b.0, c.0);
        StrLeTotal(a.0, b.0);
      }
    }
  }

  lemma RuleOrder()
    ensures TotalPreorder(RuleLeq)
  {
    KeyOrder();
    forall a: Rule, b: Rule ensures RuleLeq(a, b) || RuleLeq(b, a) {
      assert KeyLeq(KeyOf(a), KeyOf(b)) || KeyLeq(KeyOf(b), KeyOf(a));
    }
    forall a: Rule, b: Rule, c: Rule | RuleLeq(a, b) && RuleLeq(b, c) ensures RuleLeq(a, c) {
      assert KeyLeq(KeyOf(a), KeyOf(b)) && KeyLeq(KeyOf(b), KeyOf(c));
    }
  }

  // ----- The state

  datatype Snapshot = Snapshot(rules: seq<Rule>, sequence: int)

  /** Strictly sorted by (id, version): no key twice. */
  ghost predicate StrictlySorted(rules: seq<Rule>) {
    StrictBy(rules, KeyOf, KeyLeq)
  }

  /** What `reduce` must give: the rules of the plain map in key order, and the largest sequence. */
  ghost predicate Reduced(before: Snapshot, events: seq<NumberedEvent>, after: Snapshot) {
    && StrictlySorted(after.rules)
    && RuleMap(after.rules) == Fold(StepRules, RuleMap(before.rules), events)
    && after.sequence == Fold(StepSequence, before.sequence, events)
  }

  lemma {:induction false} StrictMap(rules: seq<Rule>, i: nat)
    requires StrictlySorted(rules) && i < |rules|
    ensures KeyOf(rules[i]) in RuleMap(rules) && RuleMap(rules)[KeyOf(rules[i])] == rules[i]
  {
    var n := |rules| - 1;
    if i < n { StrictMap(rules[..n], i); }
  }

  lemma StrictMember(a: seq<Rule>, b: seq<Rule>, r: Rule)
    requires StrictlySorted(a) && RuleMap(a) == RuleMap(b) && r in a
    ensures r in b
  {
    var i :| 0 <= i < |a| && a[i] == r;
    StrictMap(a, i);
    RuleMapKeyed(b);
    assert RuleMap(b)[KeyOf(r)] in RuleMap(b).Values;
  }

  /** Strictly sorted lists with the same plain map are equal: `Reduced` leaves no freedom. */
  lemma StrictUnique(a: seq<Rule>, b: seq<Rule>)
    requires StrictlySorted(a) && StrictlySorted(b) && RuleMap(a) == RuleMap(b)
    ensures a == b
  {
    forall r ensures r in a <==> r in b {
      if r in a { StrictMember(a, b, r); }
      if r in b { StrictMember(b, a, r); }
    }
    KeyOrder();
    StrictByUnique(a, b, KeyOf, KeyLeq);
  }

  lemma ReducedUnique(before: Snapshot, events: seq<NumberedEvent>, a: Snapshot, b: Snapshot)
    requires Reduced(before, events, a) && Reduced(before, events, b)
    ensures a == b
  {
    StrictUnique(a.rules, b.rules);
  }

  /** The sequence number never falls and is at least that of every event. */
  lemma {:induction false} SequenceIsLargest(n: int, events: seq<NumberedEvent>)
    ensures var m := Fold(StepSequence, n, events);
            && m >= n && (forall e | e in events :: e.sequence <= m)
            && (m == n || exists e :: e in events && e.sequence == m)
    decreases |events|
  {
    if events != [] {
      SequenceIsLargest(StepSequence(n, events[0]), events[1..]);
      assert events == [events[0]] + events[1..];
    }
  }

  /** The reduced state from the events: which rules it has, and its sequence. */
  lemma ReducedByEvents(before: Snapshot, events: seq<NumberedEvent>, after: Snapshot, k: RuleKey)
    requires Reduced(before, events, after)
    ensures var last := LastIndex(events, AboutRule(k));
            && ((exists r :: r in after.rules && KeyOf(r) == k) <==>
                if last.Some? then events[last.value].event.RuleSet? else exists r :: r in before.rules && KeyOf(r) == k)
            && (last.Some? ==> forall r | r in after.rules && KeyOf(r) == k :: Some(r) == ParseRule(events[last.value].event.payload))
            && (last.None? ==> forall r | r in after.rules && KeyOf(r) == k :: r in before.rules)
    ensures after.sequence >= before.sequence && (forall e | e in events :: e.sequence <= after.sequence)
    ensures after.sequence == before.sequence || exists e :: e in events && e.sequence == after.sequence
  {
    RulesByEvents(RuleMap(before.rules), events, k);
    RuleMapKeyed(before.rules);
    RuleMapKeyed(after.rules);
    SequenceIsLargest(before.sequence, events);
    forall r | r in after.rules && KeyOf(r) == k ensures RuleMap(after.rules)[k] == r {
      var i :| 0 <= i < |after.rules| && after.rules[i] == r;
      StrictMap(after.rules, i);
    }
  }

  // ----- `reduce`, which updates the state it is given

  class GovernanceState {
    var rules: seq<Rule>
    var sequence: int

    constructor ()
      ensures Now() == Snapshot([], 0)
    {
      rules, sequence := [], 0;
    }

    ghost function Now(): Snapshot
      reads this
    {
      Snapshot(rules, sequence)
    }
  }

  /** The keys in order, whatever order the dict has. */
  method SortedKeys(m: Rules) returns (keys: seq<RuleKey>)
    ensures Sorted(keys, KeyLeq) && NoDup(keys) && forall k :: k in keys <==> k in m
  {
    keys := [];
    var pending := m.Keys;
    while pending != {}
      invariant NoDup(keys) && pending <= m.Keys
      invariant forall k :: k in keys <==> k in m && k !in pending
      decreases |pending|
    {
      var k :| k in pending;
      keys := keys + [k];
      pending := pending - {k};
    }
    SortOfKeys(keys);
    keys := StableSort(keys, KeyLeq);
  }

  lemma SortOfKeys(keys: seq<RuleKey>)
    requires NoDup(keys)
    ensures var r := StableSort(keys, KeyLeq); Sorted(r, KeyLeq) && NoDup(r) && forall k: RuleKey :: k in r <==> k in keys
  {
    KeyOrder();
    StableSortCorrect(keys, KeyLeq);
    SortKeepsElements(keys, KeyLeq);
    forall k: RuleKey ensures k in StableSort(keys, KeyLeq) <==> k in keys { SortKeepsElement(keys, KeyLeq, k); }
  }

  /** The loop over the events, which ends at an exception. */
  method ApplyEvents(m: Rules, events: seq<NumberedEvent>, state: GovernanceState) returns (after: Rules, ok: bool)
    modifies state`sequence
    ensures ok <==> Processed(events) == events
    ensures ok ==> after == Fold(StepRules, m, events)
    ensures state.sequence == Fold(StepSequence, old(state.sequence), Processed(events))
  {
    after := m;
    for i := 0 to |events|
      invariant forall k | 0 <= k < i :: Parses(events[k])
      invariant after == Fold(StepRules, m, events[..i])
      invariant state.sequence == Fold(StepSequence, old(state.sequence), events[..i])
    {
      FoldSnoc(StepRules, m, events, i);
      FoldSnoc(StepSequence, old(state.sequence), events, i);
      match events[i].event {
        case RuleSet(payload) =>
          var rule := ParseRule(payload);
          if rule.None? {
            ProcessedUpTo(events, i);
            return after, false;
          }
          after := after[KeyOf(rule.value) := rule.value];
        case RuleDeleted(id, version) =>
          if id.Some? && id.value != "" { after := after - {(id.value, version)}; }
        case OtherEvent =>
      }
      if events[i].sequence > state.sequence { state.sequence := events[i].sequence; }
    }
    ProcessedUpTo(events, |events|);
    assert events[..|events|] == events;
    ok := true;
  }

  lemma ProcessedUpTo(events: seq<NumberedEvent>, i: nat)
    requires i <= |events| && forall k | 0 <= k < i :: Parses(events[k])
    requires i < |events| ==> !Parses(events[i])
    ensures Processed(events) == events[..i]
  {
    var r := Processed(events);
    assert r == events[..|r|] && forall k | 0 <= k < |r| :: events[k] == r[k];
  }

  method MapRules(rules: seq<Rule>) returns (m: Rules)
    ensures m == RuleMap(rules)
  {
    m := map[];
    for i := 0 to |rules|
      invariant m == RuleMap(rules[..i])
    {
      assert rules[..i + 1][..i] == rules[..i];
      m := m[KeyOf(rules[i]) := rules[i]];
    }
    assert rules[..|rules|] == rules;
  }

  /** The rules of the map in the order of the sorted keys. */
  method ListRules(m: Rules, keys: seq<RuleKey>) returns (rules: seq<Rule>)
    requires KeyedRules(m) && Sorted(keys, KeyLeq) && NoDup(keys) && forall k :: k in keys <==> k in m
    ensures StrictlySorted(rules) && RuleMap(rules) == m
  {
    rules := [];
    for i := 0 to |keys|
      invariant |rules| == i && forall j | 0 <= j < i :: rules[j] == m[keys[j]] && KeyOf(rules[j]) == keys[j]
    {
      rules := rules + [m[keys[i]]];
    }
    ListedMap(m, keys, rules);
  }

  lemma {:induction false} ListedMap(m: Rules, keys: seq<RuleKey>, rules: seq<Rule>)
    requires KeyedRules(m) && Sorted(keys, KeyLeq) && NoDup(keys) && forall k :: k in keys <==> k in m
    requires |rules| == |keys| && forall j | 0 <= j < |keys| :: rules[j] == m[keys[j]] && KeyOf(rules[j]) == keys[j]
    ensures StrictlySorted(rules) && RuleMap(rules) == m
  {
    RuleMapKeyed(rules);
    forall k ensures k in RuleMap(rules) <==> k in m
             ensures k in m ==> RuleMap(rules)[k] == m[k] {
      if k in m {
        var j :| 0 <= j < |keys| && keys[j] == k;
        StrictMap(rules, j);
      }
    }
    assert RuleMap(rules).Keys == m.Keys;
  }

  /**
   `reduce`. An event that does not parse raises: then the rules are as they were, although the
   sequence has advanced over the events before it.
   */
  method Reduce(events: seq<NumberedEvent>, state: GovernanceState) returns (ok: bool)
    modifies state
    ensures ok <==> forall e | e in events :: Parses(e)
    ensures ok ==> Reduced(old(state.Now()), events, state.Now())
    ensures !ok ==> state.rules == old(state.rules) && state.sequence == Fold(StepSequence, old(state.sequence), Processed(events))
  {
    var rulesByKey := MapRules(state.rules);
    RuleMapKeyed(state.rules);
    FoldKeyed(rulesByKey, events);
    rulesByKey, ok := ApplyEvents(rulesByKey, events, state);
    if ok {
      var keys := SortedKeys(rulesByKey);
      state.rules := ListRules(rulesByKey, keys);
    } else {
      assert events[|Processed(events)|] in events;
    }
  }

  // ----- Serialised form

  datatype RulesPayload = RulesPayload(rules: seq<RuleRow>, sequence: int)

  function ParseRows(rows: seq<RuleRow>): Option<seq<Rule>> {
    if rows == [] then Some([])
    else
      var n := |rows| - 1;
      var before, last := ParseRows(rows[..n]), ParseRow(rows[n]);
      if before.Some? && last.Some? then Some(before.value + [last.value]) else None
  }

  function ParsePayload(p: RulesPayload): Option<Snapshot> {
    var rules := ParseRows(p.rules);
    if rules.Some? then Some(Snapshot(StableSort(rules.value, RuleLeq), p.sequence)) else None
  }

  method Deserialize(p: RulesPayload) returns (s: Option<Snapshot>)
    ensures s == ParsePayload(p)
  {
    var rules: seq<Rule> := [];
    for i := 0 to |p.rules|
      invariant ParseRows(p.rules[..i]) == Some(rules)
    {
      assert p.rules[..i + 1][..i] == p.rules[..i];
      var rule := ParseRow(p.rules[i]);
      if rule.None? {
        ParseFails(p.rules, i);
        return None;
      }
      rules := rules + [rule.value];
    }
    assert p.rules[..|p.rules|] == p.rules;
    s := Some(Snapshot(StableSort(rules, RuleLeq), p.sequence));
  }

  lemma {:induction false} ParseFails(rows: seq<RuleRow>, i: nat)
    requires i < |rows| && ParseRow(rows[i]) == None
    ensures ParseRows(rows) == None
  {
    if i < |rows| - 1 {
      ParseFails(rows[..|rows| - 1], i);
    }
  }

  /** A set written as a list, in any order the set is iterated in. */
  ghost predicate NamesExactly<T(!new)>(name: T -> string, s: set<T>, names: seq<string>) {
    (forall x | x in s :: name(x) in names) && (forall n | n in names :: exists x :: x in s && name(x) == n)
  }

  ghost predicate NamesExactlyIfAny<T(!new)>(name: T -> string, s: Option<set<T>>, names: Option<seq<string>>) {
    match (s, names)
    case (None, None) => true
    case (Some(v), Some(ns)) => NamesExactly(name, v, ns)
    case _ => false
  }

  ghost predicate RowOf(r: Rule, row: RuleRow) {
    && row.id == r.id && row.version == r.version && row.description == r.description
    && row.severity == SeverityName(r.severity) && row.action == ActionName(r.action)
    && NamesExactlyIfAny(CategoryName, r.categories, row.categories)
    && row.minimumPriority == r.minimumPriority
    && NamesExactlyIfAny(SeverityName, r.severities, row.severities)
    && row.enabled == r.enabled
  }

  /** `serialize`, up to the iteration order of sets. */
  ghost predicate Serialized(s: Snapshot, p: RulesPayload) {
    && p.sequence == s.sequence && |p.rules| == |s.rules|
    && forall i | 0 <= i < |s.rules| :: RowOf(s.rules[i], p.rules[i])
  }

  /** Parsing is the left inverse of naming, and names nothing else. */
  ghost predicate Inverse<T(!new)>(name: T -> string, parse: string -> Option<T>) {
    forall x :: parse(name(x)) == Some(x)
  }

  ghost predicate Named<T(!new)>(name: T -> string, n: string) {
    exists x :: name(x) == n
  }

  lemma {:induction false} ParseNames<T(!new)>(name: T -> string, parse: string -> Option<T>, names: seq<string>)
    requires Inverse(name, parse) && forall n | n in names :: Named(name, n)
    ensures ParseSet(parse, names).Some?
    ensures forall x :: x in ParseSet(parse, names).value <==> name(x) in names
  {
    if names != [] {
      var n := |names| - 1;
      assert names == names[..n] + [names[n]];
      ParseNames(name, parse, names[..n]);
      assert Named(name, names[n]);
      var y :| name(y) == names[n];
      assert parse(name(y)) == Some(y);
      forall x ensures x in ParseSet(parse, names).value <==> name(x) in names {
        assert parse(name(x)) == Some(x);
      }
    }
  }

  lemma ParseListed<T(!new)>(name: T -> string, parse: string -> Option<T>, s: Option<set<T>>, names: Option<seq<string>>)
    requires Inverse(name, parse) && NamesExactlyIfAny(name, s, names)
    ensures ParseOptional(parse, names) == Some(s)
  {
    if s.Some? {
      forall n | n in names.value ensures Named(name, n) {
        var x :| x in s.value && name(x) == n;
      }
      ParseNames(name, parse, names.value);
      var parsed := ParseSet(parse, names.value).value;
      forall x ensures x in parsed <==> x in s.value {
        if name(x) in names.value {
          var y :| y in s.value && name(y) == name(x);
          assert parse(name(y)) == Some(y) && parse(name(x)) == Some(x);
        }
      }
      assert parsed == s.value;
    }
  }

  lemma NamesInvert()
    ensures Inverse(SeverityName, ParseSeverity) && Inverse(ActionName, ParseAction) && Inverse(CategoryName, ParseCategory)
  {
  }

  lemma RowRoundTrip(r: Rule, row: RuleRow)
    requires RowOf(r, row)
    ensures ParseRow(row) == Some(r)
  {
    NamesInvert();
    ParseListed(CategoryName, ParseCategory, r.categories, row.categories);
    ParseListed(SeverityName, ParseSeverity, r.severities, row.severities);
    assert ParseAction(ActionName(r.action)) == Some(r.action);
  }

  lemma {:induction false} RowsRoundTrip(rules: seq<Rule>, rows: seq<RuleRow>)
    requires |rows| == |rules| && forall i | 0 <= i < |rules| :: RowOf(rules[i], rows[i])
    ensures ParseRows(rows) == Some(rules)
  {
    if rules != [] {
      var n := |rules| - 1;
      RowsRoundTrip(rules[..n], rows[..n]);
      RowRoundTrip(rules[n], rows[n]);
      assert rules == rules[..n] + [rules[n]];
    }
  }

  /** Reading back what was serialised gives the state, if it is in key order. */
  lemma RoundTrip(s: Snapshot, p: RulesPayload)
    requires Serialized(s, p) && StrictlySorted(s.rules)
    ensures ParsePayload(p) == Some(s)
  {
    RowsRoundTrip(s.rules, p.rules);
    RuleOrder();
    SortIsIdentity(s.rules, RuleLeq);
  }

  // ----- A snapshot in between

  /** Reducing in two parts, with the first result serialised and read back, is reducing at once. */
  lemma ReduceSplit(s: Snapshot, a: seq<NumberedEvent>, b: seq<NumberedEvent>, middle: Snapshot, p: RulesPayload, end: Snapshot, whole: Snapshot)
    requires Reduced(s, a, middle) && Serialized(middle, p)
    requires ParsePayload(p).Some? ==> Reduced(ParsePayload(p).value, b, end)
    requires Reduced(s, a + b, whole)
    ensures ParsePayload(p) == Some(middle) && end == whole
    ensures (forall e | e in a + b :: Parses(e)) <==> (forall e | e in a :: Parses(e)) && (forall e | e in b :: Parses(e))
  {
    RoundTrip(middle, p);
    assert (forall e | e in a :: e in a + b) && forall e | e in b :: e in a + b;
    FoldSplit(StepRules, RuleMap(s.rules), a, b);
    FoldSplit(StepSequence, s.sequence, a, b);
    ReducedUnique(s, a + b, end, whole);
  }
}
