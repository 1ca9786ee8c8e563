/** The stateless packet-inspection rules (src/spi_engine.c): first-match semantics and the
    double-buffered rule table with its reload. */
module RuleEngine {
  import opened FlowTypes

  const ACTION_UNKNOWN: u8 := 0
  const ACTION_FORWARD: u8 := 1
  const ACTION_DROP: u8 := 2
  const MAX_RULES := 256

  /** struct spi_rule without its display name. */
  datatype Rule = Rule(
    srcIp: u32, dstIp: u32, srcPort: u16, dstPort: u16, protocol: u8, action: u8,
    matchSrcIp: bool, matchDstIp: bool, matchSrcPort: bool, matchDstPort: bool, matchProtocol: bool)

  const ZERO_RULE := Rule(0, 0, 0, 0, 0, ACTION_UNKNOWN, false, false, false, false, false)

  /** struct spi_rule_table: only the first count rules are in force. */
  datatype RuleTable = RuleTable(version: u32, count: nat, rules: seq<Rule>) {
    ghost predicate Valid() { |rules| == MAX_RULES && count <= MAX_RULES }
    function Active(): seq<Rule>
      requires Valid()
    {
      rules[..count]
    }
  }

  /** What memset leaves in a table. */
  function ZeroTable(): (t: RuleTable)
    ensures t.Valid() && t.count == 0
  {
    RuleTable(0, 0, seq(MAX_RULES, i => ZERO_RULE))
  }

  predicate RuleMatches(rule: Rule, cold: Cold) {
    && (!rule.matchProtocol || rule.protocol == cold.protocol)
    && (!rule.matchSrcIp || rule.srcIp == cold.srcIp)
    && (!rule.matchDstIp || rule.dstIp == cold.dstIp)
    && (!rule.matchSrcPort || rule.srcPort == cold.srcPort)
    && (!rule.matchDstPort || rule.dstPort == cold.dstPort)
  }

  /** The action of the first rule that matches, FORWARD when none does. */
  function FirstMatch(rules: seq<Rule>, cold: Cold): u8 {
    if rules == [] then ACTION_FORWARD
    else if RuleMatches(rules[0], cold) then rules[0].action
    else FirstMatch(rules[1..], cold)
  }

  ghost predicate IsFirst(rules: seq<Rule>, cold: Cold, i: nat) {
    i < |rules| && RuleMatches(rules[i], cold) && forall j | 0 <= j < i :: !RuleMatches(rules[j], cold)
  }

  /** What FirstMatch means, in both directions. */
  lemma {:induction false} FirstMatchIff(rules: seq<Rule>, cold: Cold, action: u8)
    ensures FirstMatch(rules, cold) == action
       <==> || (exists i: nat :: IsFirst(rules, cold, i) && rules[i].action == action)
            || (action == ACTION_FORWARD && forall i | 0 <= i < |rules| :: !RuleMatches(rules[i], cold))
  {
    if rules == [] {
    } else if RuleMatches(rules[0], cold) {
      assert IsFirst(rules, cold, 0);
    } else {
      var tail := rules[1..];
      FirstMatchIff(tail, cold, action);
      forall i: nat | IsFirst(tail, cold, i) ensures IsFirst(rules, cold, i + 1) {
        assert forall j | 0 <= j < i + 1 :: j == 0 || rules[j] == tail[j - 1];
      }
      forall i: nat | IsFirst(rules, cold, i) ensures i > 0 && IsFirst(tail, cold, i - 1) {
        assert forall j | 0 <= j < |tail| :: tail[j] == rules[j + 1];
      }
      assert (forall i | 0 <= i < |tail| :: !RuleMatches(tail[i], cold))
          ==> forall i | 0 <= i < |rules| :: !RuleMatches(rules[i], cold) by {
        assert forall i | 0 < i < |rules| :: rules[i] == tail[i - 1];
      }
    }
  }

  /** A verdict depends on the 5-tuple alone, not on the flow's creation time. */
  lemma {:induction false} VerdictIgnoresCreateTime(rules: seq<Rule>, a: Cold, b: Cold)
    requires KeyFromCold(a) == KeyFromCold(b)
    ensures FirstMatch(rules, a) == FirstMatch(rules, b)
  {
    if rules == [] {
    } else {
      VerdictIgnoresCreateTime(rules[1..], a, b);
    }
  }

  /** A rule applies exactly to the records that agree with it in every field it asks about. */
  lemma OneRuleVerdict(rule: Rule, cold: Cold)
    requires rule.action != ACTION_FORWARD
    ensures FirstMatch([rule], cold) == rule.action
       <==> && (rule.matchSrcIp ==> cold.srcIp == rule.srcIp) && (rule.matchDstIp ==> cold.dstIp == rule.dstIp)
            && (rule.matchSrcPort ==> cold.srcPort == rule.srcPort)
            && (rule.matchDstPort ==> cold.dstPort == rule.dstPort)
            && (rule.matchProtocol ==> cold.protocol == rule.protocol)
    ensures FirstMatch([rule], cold) == rule.action || FirstMatch([rule], cold) == ACTION_FORWARD
  {
    assert FirstMatch([rule][1..], cold) == ACTION_FORWARD;
  }

  /** The rule that asks for every field of a 5-tuple. */
  function RuleFor(k: Key, action: u8): Rule {
    Rule(k.ipSrc, k.ipDst, k.portSrc, k.portDst, k.proto, action, true, true, true, true, true)
  }

  /** A rule that asks for every field drops one flow and no other. */
  lemma ExactRuleDropsOneFlow(k: Key, other: Key, createTime: nat)
    ensures FirstMatch([RuleFor(k, ACTION_DROP)], ColdFromKey(other, createTime)) == ACTION_DROP <==> other == k
  {
    OneRuleVerdict(RuleFor(k, ACTION_DROP), ColdFromKey(other, createTime));
  }

  /** The rule that drops and asks for nothing yet. */
  const DROP_ALL := ZERO_RULE.(action := ACTION_DROP)

  predicate Drops(rule: Rule, cold: Cold) {
    FirstMatch([rule], cold) == ACTION_DROP
  }

  /** A rule that asks for one field looks at no other. */
  lemma OneFieldRules(v: u32, port: u16, proto: u8, cold: Cold)
    ensures Drops(DROP_ALL.(matchSrcIp := true, srcIp := v), cold) <==> cold.srcIp == v
    ensures Drops(DROP_ALL.(matchDstIp := true, dstIp := v), cold) <==> cold.dstIp == v
    ensures Drops(DROP_ALL.(matchSrcPort := true, srcPort := port), cold) <==> cold.srcPort == port
    ensures Drops(DROP_ALL.(matchDstPort := true, dstPort := port), cold) <==> cold.dstPort == port
    ensures Drops(DROP_ALL.(matchProtocol := true, protocol := proto), cold) <==> cold.protocol == proto
    ensures Drops(DROP_ALL, cold)
  {
    OneRuleVerdict(DROP_ALL.(matchSrcIp := true, srcIp := v), cold);
    OneRuleVerdict(DROP_ALL.(matchDstIp := true, dstIp := v), cold);
    OneRuleVerdict(DROP_ALL.(matchSrcPort := true, srcPort := port), cold);
    OneRuleVerdict(DROP_ALL.(matchDstPort := true, dstPort := port), cold);
    OneRuleVerdict(DROP_ALL.(matchProtocol := true, protocol := proto), cold);
    OneRuleVerdict(DROP_ALL, cold);
  }

  /** The list is read from the front: a rule that does not apply is passed over, the first one that
      does decides, and FORWARD is what is left. */
  lemma RulesInOrder(rule: Rule, rest: seq<Rule>, cold: Cold)
    ensures RuleMatches(rule, cold) ==> FirstMatch([rule] + rest, cold) == rule.action
    ensures !RuleMatches(rule, cold) ==> FirstMatch([rule] + rest, cold) == FirstMatch(rest, cold)
    ensures FirstMatch([], cold) == ACTION_FORWARD
  {
    assert ([rule] + rest)[1..] == rest;
  }

  lemma {:induction false} SkipRejected(rules: seq<Rule>, cold: Cold, i: nat)
    requires i <= |rules|
    requires forall j | 0 <= j < i :: !RuleMatches(rules[j], cold)
    ensures FirstMatch(rules, cold) == FirstMatch(rules[i..], cold)
  {
    if i == 0 {
      assert rules[0..] == rules;
    } else {
      SkipRejected(rules, cold, i - 1);
      assert rules[i - 1..][1..] == rules[i..];
    }
  }

  /** The verdict of a table pointer; a null pointer forwards everything. */
  ghost function Verdict(table: Option<RuleTable>, cold: Cold): u8
    requires table.Some? ==> table.value.Valid()
  {
    match table
    case None => ACTION_FORWARD
    case Some(t) => FirstMatch(t.Active(), cold)
  }

  /** match_cold_against_table */
  method MatchColdAgainstTable(table: Option<RuleTable>, cold: Cold) returns (action: u8)
    requires table.Some? ==> table.value.Valid()
    ensures action == Verdict(table, cold)
  {
    if table == None {
      return ACTION_FORWARD;
    }
    var t := table.value;
    var i := 0;
    while i < t.count
      invariant 0 <= i <= t.count
      invariant forall j | 0 <= j < i :: !RuleMatches(t.rules[j], cold)
    {
      if RuleMatches(t.rules[i], cold) {
        SkipRejected(t.Active(), cold, i);
        return t.rules[i].action;
      }
      i := i + 1;
    }
    SkipRejected(t.Active(), cold, t.count);
    return ACTION_FORWARD;
  }

  /** One significant line of a rule file, as the text parser leaves it. */
  datatype Line = BadFormat | BadValues(partial: Rule) | Good(rule: Rule)

  /** A rule file: unreadable, or its significant lines in order. */
  datatype RuleFile = Missing | Lines(lines: seq<Line>)

  predicate Loadable(file: RuleFile) {
    file.Lines? && |file.lines| <= MAX_RULES && forall i | 0 <= i < |file.lines| :: file.lines[i].Good?
  }

  /** A file loads exactly when it can be read, has at most 256 rules and nothing but rules. */
  lemma LoadableIff(file: RuleFile)
    ensures Loadable(file) <==> file != Missing && |file.lines| <= 256 && forall line | line in file.lines :: line.Good?
  {
  }

  function RulesOf(file: RuleFile): seq<Rule>
    requires Loadable(file)
  {
    seq(|file.lines|, i requires 0 <= i < |file.lines| => file.lines[i].rule)
  }

  /** The engine's global state: the two tables, the published one and the reload flag. */
  class SpiRuleEngine {
    const tables: array<RuleTable>
    var active: Option<nat>
    var reloadRequested: bool

    ghost predicate Valid()
      reads this, tables
    {
      && tables.Length == 2
      && tables[0].Valid() && tables[1].Valid()
      && (active.Some? ==> active.value < 2)
    }

    /** The table readers see. */
    ghost function Published(): Option<RuleTable>
      reads this, tables
      requires Valid()
    {
      if active.None? then None else Some(tables[active.value])
    }

    ghost function Version(): u32
      reads this, tables
      requires Valid()
    {
      if Published().None? then 0 else Published().value.version
    }

    constructor ()
      ensures Valid() && fresh(tables) && active == None && !reloadRequested
    {
      tables := new RuleTable[2](i => ZeroTable());
      active := None;
      reloadRequested := false;
    }

    /** spi_rule_engine_match_cold */
    method MatchCold(cold: Cold) returns (action: u8)
      requires Valid()
      ensures action == Verdict(Published(), cold)
    {
      var table := if active.None? then None else Some(tables[active.value]);
      action := MatchColdAgainstTable(table, cold);
    }

    /** What the next spi_rule_engine_reload_if_needed will return, given the file it finds. */
    ghost function Answer(file: RuleFile): int
      reads `reloadRequested
    {
      if !reloadRequested then 0 else if Loadable(file) then 1 else -1
    }

    /** spi_rule_engine_request_reload: whatever the file then holds, the next reload check
        attempts the load; readers notice nothing yet, and a repeated request adds nothing. */
    method RequestReload()
      modifies `reloadRequested
      ensures forall file :: Answer(file) == if Loadable(file) then 1 else -1
      ensures old(Valid()) ==> Valid() && Published() == old(Published())
      ensures forall file | old(Answer(file)) != 0 :: Answer(file) == old(Answer(file))
    {
      reloadRequested := true;
    }

    /** load_rule_file into table slot idx. The other table is never touched; a failed load
        may leave anything in slot idx. */
    method LoadRuleFile(file: RuleFile, idx: nat) returns (ok: bool)
      requires Valid() && idx < 2
      modifies tables
      ensures Valid()
      ensures tables[1 - idx] == old(tables[1 - idx])
      ensures ok <==> Loadable(file)
      ensures ok ==> tables[idx].Active() == RulesOf(file)
      ensures file.Missing? ==> tables[idx] == old(tables[idx])
    {
      if file.Missing? {
        return false;
      }
      tables[idx] := ZeroTable();
      var lines := file.lines;
      for i := 0 to |lines|
        invariant Valid()
        invariant tables[1 - idx] == old(tables[1 - idx])
        invariant i <= MAX_RULES && tables[idx].count == i
        invariant forall j | 0 <= j < i :: lines[j].Good? && tables[idx].rules[j] == lines[j].rule
      {
        if lines[i].BadFormat? {
          return false;
        }
        var table := tables[idx];
        if table.count >= MAX_RULES {
          return false;
        }
        if lines[i].BadValues? {
          tables[idx] := table.(rules := table.rules[table.count := lines[i].partial]);
          return false;
        }
        tables[idx] := table.(count := table.count + 1, rules := table.rules[table.count := lines[i].rule]);
      }
      return true;
    }

    /** spi_rule_engine_init */
    method Init(file: RuleFile) returns (ok: bool)
      requires Valid()
      modifies this, tables
      ensures Valid()
      ensures ok <==> Loadable(file)
      ensures ok ==> active == Some(0) && Version() == 1 && Published().value.Active() == RulesOf(file)
      ensures ok ==> !reloadRequested
      ensures !ok ==> active == old(active)
    {
      tables[0], tables[1] := ZeroTable(), ZeroTable();
      ok := LoadRuleFile(file, 0);
      if ok {
        tables[0] := tables[0].(version := 1);
        active := Some(0);
        reloadRequested := false;
      }
    }

    /** spi_rule_engine_reload_if_needed: 0 when not requested, -1 on a failed load, 1 when
        a new version was published. Either way the pending requests are used up. */
    method ReloadIfNeeded(file: RuleFile) returns (result: int)
      requires Valid()
      modifies this, tables
      ensures Valid() && forall later :: Answer(later) == 0
      ensures result == old(Answer(file))
      ensures result != 1 ==> Published() == old(Published())
      ensures result == 1 ==> Published().Some? && Published().value.Active() == RulesOf(file)
      ensures result == 1 ==> Version() == (old(Version()) + 1) % U32_MODULUS
      ensures result == 1 && old(active).Some? ==> tables[old(active).value] == old(tables[active.value])
    {
      if !reloadRequested {
        return 0;
      }
      reloadRequested := false;
      var inactive := if active == Some(0) then 1 else 0;
      var version := if active.None? then 0 else tables[active.value].version;
      var ok := LoadRuleFile(file, inactive);
      if !ok {
        return -1;
      }
      tables[inactive] := tables[inactive].(version := (version + 1) % U32_MODULUS);
      active := Some(inactive);
      return 1;
    }
  }
}
