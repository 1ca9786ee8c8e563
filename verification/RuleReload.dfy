/** A worker reading rules one at a time while the control thread reloads them
    (src/spi_engine.c). Every atomic access is one step; memory is sequentially consistent.
    A load writes the inactive table in arbitrary small pieces. */
module RuleReload {
  import opened FlowTypes
  import opened RuleEngine

  /** A worker inside match_cold_against_table. `seen` remembers the table contents at the
      moment the pointer was read; the program does not store it. */
  datatype Reader =
    | NotReading
    | Reading(table: nat, cold: Cold, next: nat, seen: RuleTable)
    | Answered(cold: Cold, seen: RuleTable, action: u8)

  datatype Engine = Engine(tables: seq<RuleTable>, active: nat, loading: bool, reader: Reader) {
    function Inactive(): nat { if active == 0 then 1 else 0 }
  }

  datatype Step =
    | StartLoad                     // memset of the inactive table
    | LoadWrite(contents: RuleTable) // any write of the load in progress
    | FailLoad
    | Publish                       // version number, then the pointer swap
    | PickTable(cold: Cold)         // the worker loads the pointer
    | TestRule                      // the worker tests one rule, or finds the end

  ghost predicate Valid(e: Engine) {
    && |e.tables| == 2 && e.active < 2
    && e.tables[0].Valid() && e.tables[1].Valid()
    && (e.reader.Reading? ==> e.reader.table < 2)
  }

  ghost predicate Enabled(e: Engine, step: Step)
    requires Valid(e)
  {
    match step
    case StartLoad => !e.loading
    case LoadWrite(contents) => e.loading && contents.Valid()
    case FailLoad => e.loading
    case Publish => e.loading
    case PickTable(_) => !e.reader.Reading?
    case TestRule => e.reader.Reading?
  }

  function WriteInactive(e: Engine, contents: RuleTable): Engine
    requires |e.tables| == 2
  {
    e.(tables := e.tables[e.Inactive() := contents])
  }

  function Test(e: Engine): Engine
    requires e.reader.Reading? && e.reader.table < |e.tables|
  {
    var r := e.reader;
    var live := e.tables[r.table];
    if r.next >= live.count || r.next >= |live.rules| then e.(reader := Answered(r.cold, r.seen, ACTION_FORWARD))
    else if RuleMatches(live.rules[r.next], r.cold) then
      e.(reader := Answered(r.cold, r.seen, live.rules[r.next].action))
    else e.(reader := r.(next := r.next + 1))
  }

  ghost function Do(e: Engine, step: Step): (e': Engine)
    requires Valid(e) && Enabled(e, step)
    ensures Valid(e')
  {
    match step
    case StartLoad => WriteInactive(e, ZeroTable()).(loading := true)
    case LoadWrite(contents) => WriteInactive(e, contents)
    case FailLoad => e.(loading := false)
    case Publish =>
      var version := (e.tables[e.active].version + 1) % U32_MODULUS;
      WriteInactive(e, e.tables[e.Inactive()].(version := version)).(active := e.Inactive(), loading := false)
    case PickTable(cold) => e.(reader := Reading(e.active, cold, 0, e.tables[e.active]))
    case TestRule => Test(e)
  }

  /** The engine after a schedule, None when some step was not enabled. */
  ghost function Run(e: Engine, steps: seq<Step>): (result: Option<Engine>)
    requires Valid(e)
    ensures result.Some? ==> Valid(result.value)
    decreases steps
  {
    if steps == [] then Some(e)
    else if !Enabled(e, steps[0]) then None
    else Run(Do(e, steps[0]), steps[1..])
  }

  /** No step of a load, and no failure of one, changes the table readers are given. */
  lemma LoadsSpareTheActiveTable(e: Engine, step: Step)
    requires Valid(e) && Enabled(e, step)
    ensures !step.Publish? ==> Do(e, step).tables[e.active] == e.tables[e.active] && Do(e, step).active == e.active
    ensures step.Publish? ==> Do(e, step).tables[e.active] == e.tables[e.active]
    ensures step.Publish? ==>
      Do(e, step).tables[Do(e, step).active].version == (e.tables[e.active].version + 1) % U32_MODULUS
  {
  }

  /** The hazard: a load that starts while the worker still reads the previously active table. */
  ghost predicate Overwrites(e: Engine, step: Step)
  {
    step.StartLoad? && e.reader.Reading? && e.active != e.reader.table
  }

  ghost predicate NoOverwrite(e: Engine, steps: seq<Step>)
    requires Valid(e)
    decreases steps
  {
    steps == [] || !Enabled(e, steps[0]) ||
    (!Overwrites(e, steps[0]) && NoOverwrite(Do(e, steps[0]), steps[1..]))
  }

  ghost predicate Rejected(rules: seq<Rule>, cold: Cold, n: nat)
    requires n <= |rules|
  {
    forall j | 0 <= j < n :: !RuleMatches(rules[j], cold)
  }

  ghost predicate ReaderInv(e: Engine)
    requires Valid(e)
  {
    var r := e.reader;
    && (r.Reading? ==>
          && e.tables[r.table] == r.seen
          && (e.loading ==> e.active == r.table)
          && r.next <= r.seen.count
          && Rejected(r.seen.rules, r.cold, r.next))
    && (r.Answered? ==> r.seen.Valid() && r.action == FirstMatch(r.seen.Active(), r.cold))
  }

  lemma StepKeepsReader(e: Engine, step: Step)
    requires Valid(e) && Enabled(e, step) && ReaderInv(e) && !Overwrites(e, step)
    ensures ReaderInv(Do(e, step))
  {
    if step.TestRule? {
      var r := e.reader;
      SkipRejected(r.seen.Active(), r.cold, r.next);
    }
  }

  /** Whatever the interleaving, a worker answers with the first match of exactly the table
      version it picked up, provided no load starts after a successful publish during its read. */
  lemma {:induction false} ReaderAnswersForItsVersion(e: Engine, steps: seq<Step>)
    requires Valid(e) && ReaderInv(e) && NoOverwrite(e, steps)
    requires Run(e, steps).Some? && Run(e, steps).value.reader.Answered?
    ensures var r := Run(e, steps).value.reader;
      r.seen.Valid() && r.action == FirstMatch(r.seen.Active(), r.cold)
    decreases steps
  {
    if steps == [] {
    } else {
      StepKeepsReader(e, steps[0]);
      ReaderAnswersForItsVersion(Do(e, steps[0]), steps[1..]);
    }
  }

  /** The guard is exact: starting a load writes the table a worker is reading if and only if
      the active pointer has moved away from it. */
  lemma OverwriteIff(e: Engine)
    requires Valid(e) && Enabled(e, StartLoad) && e.reader.Reading?
    requires e.tables[e.reader.table] != ZeroTable()
    ensures Overwrites(e, StartLoad) <==> Do(e, StartLoad).tables[e.reader.table] != e.tables[e.reader.table]
  {
  }

  /** The table being read is still the one that was picked up. */
  ghost predicate ReadsItsVersion(e: Engine)
    requires Valid(e)
  {
    e.reader.Reading? ==> e.tables[e.reader.table] == e.reader.seen
  }

  ghost predicate AlwaysReadsItsVersion(e: Engine, steps: seq<Step>)
    requires Valid(e)
    decreases steps
  {
    ReadsItsVersion(e) &&
    (steps == [] || !Enabled(e, steps[0]) || AlwaysReadsItsVersion(Do(e, steps[0]), steps[1..]))
  }

  /** No table that is read is all zero. */
  ghost predicate RealTables(e: Engine, steps: seq<Step>)
    requires Valid(e)
    decreases steps
  {
    (e.reader.Reading? ==> e.reader.seen != ZeroTable()) &&
    (steps == [] || !Enabled(e, steps[0]) || RealTables(Do(e, steps[0]), steps[1..]))
  }

  /** Over whole runs: no load starts on a table being read if and only if a worker's table stays,
      after every step, the one it picked up. */
  lemma {:induction false} NoOverwriteIff(e: Engine, steps: seq<Step>)
    requires Valid(e) && ReaderInv(e) && RealTables(e, steps)
    ensures NoOverwrite(e, steps) <==> AlwaysReadsItsVersion(e, steps)
    decreases steps
  {
    if steps != [] && Enabled(e, steps[0]) {
      var e' := Do(e, steps[0]);
      if Overwrites(e, steps[0]) {
        assert !ReadsItsVersion(e');
      } else {
        StepKeepsReader(e, steps[0]);
        NoOverwriteIff(e', steps[1..]);
      }
    }
  }

  function DropAll(): Rule { ZERO_RULE.(action := ACTION_DROP) }

  /** A table of two rules: one that matches only source port 1, then one that drops the rest. */
  function TwoRules(version: u32): (t: RuleTable)
    ensures t.Valid()
  {
    RuleTable(version, 2,
              ZeroTable().rules[0 := DropAll().(matchSrcPort := true, srcPort := 1)][1 := DropAll()])
  }

  lemma OneMore(e: Engine, step: Step, rest: seq<Step>)
    requires Valid(e) && Enabled(e, step)
    ensures Run(e, [step] + rest) == Run(Do(e, step), rest)
    ensures NoOverwrite(e, [step] + rest) <==> !Overwrites(e, step) && NoOverwrite(Do(e, step), rest)
  {
    assert ([step] + rest)[1..] == rest;
  }

  /** Without the guard the claim fails: every version drops everything, yet a worker that is
      overtaken by two reloads forwards the packet. */
  lemma TwoReloadsDuringOneRead()
    ensures var start := Engine([TwoRules(1), ZeroTable()], 0, false, NotReading);
      var steps := [PickTable(ZERO_COLD), TestRule, StartLoad, LoadWrite(TwoRules(0)), Publish, StartLoad, TestRule];
      && Valid(start)
      && FirstMatch(TwoRules(1).Active(), ZERO_COLD) == ACTION_DROP
      && !NoOverwrite(start, steps)
      && Run(start, steps).Some?
      && Run(start, steps).value.reader == Answered(ZERO_COLD, TwoRules(1), ACTION_FORWARD)
  {
    var e0 := Engine([TwoRules(1), ZeroTable()], 0, false, NotReading);
    SkipRejected(TwoRules(1).Active(), ZERO_COLD, 1);
    var e2 := Engine([TwoRules(1), ZeroTable()], 0, false, Reading(0, ZERO_COLD, 1, TwoRules(1)));
    var rest := [StartLoad, LoadWrite(TwoRules(0)), Publish, StartLoad, TestRule];
    Overtaken(e2);
    OneMore(e0.(reader := Reading(0, ZERO_COLD, 0, TwoRules(1))), TestRule, rest);
    OneMore(e0, PickTable(ZERO_COLD), [TestRule] + rest);
    assert [PickTable(ZERO_COLD)] + ([TestRule] + rest)
        == [PickTable(ZERO_COLD), TestRule, StartLoad, LoadWrite(TwoRules(0)), Publish, StartLoad, TestRule];
  }

  /** The worker has tested the first rule when two reloads begin. */
  lemma Overtaken(e2: Engine)
    requires e2 == Engine([TwoRules(1), ZeroTable()], 0, false, Reading(0, ZERO_COLD, 1, TwoRules(1)))
    ensures Valid(e2)
    ensures var rest := [StartLoad, LoadWrite(TwoRules(0)), Publish, StartLoad, TestRule];
      && !NoOverwrite(e2, rest) && Run(e2, rest).Some?
      && Run(e2, rest).value.reader == Answered(ZERO_COLD, TwoRules(1), ACTION_FORWARD)
  {
    var e3 := Do(e2, StartLoad);
    var e4 := Do(e3, LoadWrite(TwoRules(0)));
    var e5 := Do(e4, Publish);
    var e6 := Do(e5, StartLoad);
    assert [TestRule] + [] == [TestRule];
    OneMore(e6, TestRule, []);
    OneMore(e5, StartLoad, [TestRule]);
    assert [StartLoad] + [TestRule] == [StartLoad, TestRule];
    OneMore(e4, Publish, [StartLoad, TestRule]);
    assert [Publish] + [StartLoad, TestRule] == [Publish, StartLoad, TestRule];
    OneMore(e3, LoadWrite(TwoRules(0)), [Publish, StartLoad, TestRule]);
    OneMore(e2, StartLoad, [LoadWrite(TwoRules(0))] + [Publish, StartLoad, TestRule]);
    assert [StartLoad] + ([LoadWrite(TwoRules(0))] + [Publish, StartLoad, TestRule])
        == [StartLoad, LoadWrite(TwoRules(0)), Publish, StartLoad, TestRule];
  }
}
