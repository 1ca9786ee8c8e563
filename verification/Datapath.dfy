/** The whole datapath: the pipeline, with the rules read one at a time by every worker while they
    are reloaded (src/spi_engine.c), and with the workers' TX queues (src/worker.c).

    The pipeline classifies in one step; here the classification is a reader of RuleReload whose
    steps any other step may come between. What a worker answered is kept beside what the
    pipeline, given the table version the worker picked up, decides. */
module Datapath {
  import opened FlowTypes
  import opened FlowPacket
  import opened RuleEngine
  import opened SlotSeqlock
  import opened FlowPipeline
  import opened PipelineInvariant
  import opened PipelineDispatch
  import opened PipelineTheorems
  import Reload = RuleReload

  /** What a worker answered, and whether a load wrote the table it was reading. */
  datatype Answer = Answer(action: u8, torn: bool)

  /** A worker's rule reader, its answers, and the packets (by id) that wait in its TX queue, that
      it sent, and that its exit dropped. */
  datatype Lane = Lane(
    reader: Reload.Reader, torn: bool, log: seq<Answer>,
    pending: seq<nat>, wire: seq<nat>, lost: seq<nat>, exited: bool)

  datatype Sys = Sys(s: State, tables: seq<RuleTable>, active: nat, loading: bool, lanes: seq<Lane>)

  datatype Move =
    | Pipe(step: Step)                // any step of the pipeline but the classification
    | Control(part: Reload.Step)      // a step of a reload
    | Pick(worker: nat)               // the worker loads the table pointer
    | Test(worker: nat)               // it tests one rule, or finds the end
    | Finish(worker: nat)             // it acts on the answer
    | Unparsable(worker: nat)         // there is no record to classify
    | Send(worker: nat, n: nat)       // the driver takes a prefix of what is pending
    | Exit(worker: nat)               // the exit drops what is still pending

  const IDLE_LANE := Lane(Reload.NotReading, false, [], [], [], [], false)

  ghost predicate Start(d: Sys, n: nat, slots: nat) {
    && Init(d.s, n, slots) && Reload.Valid(Engine(d))
    && d.lanes == [IDLE_LANE, IDLE_LANE, IDLE_LANE, IDLE_LANE]
  }

  /** The rule engine without readers, and as worker w sees it. */
  function Engine(d: Sys): Reload.Engine {
    Reload.Engine(d.tables, d.active, d.loading, Reload.NotReading)
  }

  function EngineOf(d: Sys, w: nat): Reload.Engine
    requires w < |d.lanes|
  {
    Engine(d).(reader := d.lanes[w].reader)
  }

  /** Worker w has decided how to get its record, but has not classified it. */
  predicate Decided(s: State, w: nat) {
    Handling(s, w) && (s.workers[w].cur.read.Snapshot? || s.workers[w].cur.read.Reparse?)
  }

  /** The record worker w classifies with. */
  function RecordOf(s: State, w: nat): Option<Cold>
    requires Decided(s, w)
  {
    var cur := s.workers[w].cur;
    var data := s.packets[cur.id].input.data;
    if cur.read.Snapshot? then Some(cur.read.buf) else ExtractCold(data, |data|)
  }

  ghost predicate CanMove(d: Sys, m: Move) {
    match m
    case Pipe(step) =>
      Enabled(d.s, step) && !step.Classify? && !step.SetRules?
      && (step.Dequeue? ==> step.worker < |d.lanes| && !d.lanes[step.worker].exited)
    case Control(part) =>
      Reload.Valid(Engine(d)) && Reload.Enabled(Engine(d), part) && !part.PickTable? && !part.TestRule?
    case Pick(w) =>
      && w < |d.lanes| && d.active < |d.tables| && Decided(d.s, w) && RecordOf(d.s, w).Some?
      && d.lanes[w].reader.NotReading?
    case Test(w) => w < |d.lanes| && d.lanes[w].reader.Reading? && d.lanes[w].reader.table < |d.tables|
    case Finish(w) =>
      w < |d.lanes| && Decided(d.s, w) && d.lanes[w].reader.Answered? && d.lanes[w].reader.seen.Valid()
    case Unparsable(w) => w < |d.lanes| && Decided(d.s, w) && RecordOf(d.s, w).None?
    case Send(w, n) => w < |d.lanes| && n <= |d.lanes[w].pending|
    case Exit(w) => w < |d.lanes| && w < |d.s.workers| && d.s.workers[w].cur.NoPacket? && !d.lanes[w].exited
  }

  /** The pipeline's classification under the given rules. */
  ghost function Classified(s: State, w: nat, rules: seq<Rule>): State
    requires Decided(s, w)
  {
    DoClassify(s.(rules := rules), w)
  }

  /** A lane with one more answer; a packet that is not dropped waits for transmission. */
  function Answered(lane: Lane, id: nat, a: Answer): Lane {
    lane.(reader := Reload.NotReading, log := lane.log + [a],
          pending := if a.action != ACTION_DROP then lane.pending + [id] else lane.pending)
  }

  ghost function AfterControl(d: Sys, part: Reload.Step): Sys
    requires CanMove(d, Control(part))
  {
    var e := Reload.Do(Engine(d), part);
    var lanes := seq(|d.lanes|, w requires 0 <= w < |d.lanes| =>
      d.lanes[w].(torn := d.lanes[w].torn || Reload.Overwrites(EngineOf(d, w), part)));
    Sys(d.s, e.tables, e.active, e.loading, lanes)
  }

  ghost function Moved(d: Sys, m: Move): Sys
    requires CanMove(d, m)
  {
    match m
    case Pipe(step) => d.(s := Do(d.s, step))
    case Control(part) => AfterControl(d, part)
    case Pick(w) =>
      var reader := Reload.Reading(d.active, RecordOf(d.s, w).value, 0, d.tables[d.active]);
      d.(lanes := d.lanes[w := d.lanes[w].(reader := reader, torn := false)])
    case Test(w) => d.(lanes := d.lanes[w := d.lanes[w].(reader := Reload.Test(EngineOf(d, w)).reader)])
    case Finish(w) =>
      var r, id := d.lanes[w].reader, d.s.workers[w].cur.id;
      d.(s := Classified(d.s, w, r.seen.Active()),
         lanes := d.lanes[w := Answered(d.lanes[w], id, Answer(r.action, d.lanes[w].torn))])
    case Unparsable(w) =>
      d.(s := Classified(d.s, w, d.s.rules),
         lanes := d.lanes[w := Answered(d.lanes[w], d.s.workers[w].cur.id, Answer(ACTION_DROP, false))])
    case Send(w, n) =>
      var lane := d.lanes[w];
      d.(lanes := d.lanes[w := lane.(wire := lane.wire + lane.pending[..n], pending := lane.pending[n..])])
    case Exit(w) =>
      var lane := d.lanes[w];
      d.(lanes := d.lanes[w := lane.(lost := lane.pending, pending := [], exited := true)])
  }

  ghost function Moves(d: Sys, moves: seq<Move>): Option<Sys>
    decreases moves
  {
    if moves == [] then Some(d)
    else if !CanMove(d, moves[0]) then None
    else Moves(Moved(d, moves[0]), moves[1..])
  }

  // ---------------------------------------------------------------- the invariant

  /** The packets a worker's answers pass on, in order. */
  function Kept(ids: seq<nat>, log: seq<Answer>): seq<nat>
    requires |ids| == |log|
  {
    if log == [] then []
    else
      var n := |log| - 1;
      Kept(ids[..n], log[..n]) + (if log[n].action != ACTION_DROP then [ids[n]] else [])
  }

  /** What was sent, followed by what waits and what was given up, is what was passed on. */
  ghost predicate TxInv(done: seq<Done>, lane: Lane) {
    && |lane.log| == |done|
    && lane.wire + lane.pending + lane.lost == Kept(Ids(done), lane.log)
    && (!lane.exited ==> lane.lost == [])
  }

  /** An answer from a table that stayed as it was is the pipeline's. */
  ghost predicate AnswersInv(done: seq<Done>, log: seq<Answer>) {
    |log| == |done| && forall i | 0 <= i < |log| && !log[i].torn :: log[i].action == done[i].action
  }

  ghost predicate RulesInv(d: Sys, w: nat)
    requires w < |d.lanes|
  {
    var lane := d.lanes[w];
    && (lane.reader.Reading? || lane.reader.Answered? ==>
          && Decided(d.s, w) && RecordOf(d.s, w) == Some(lane.reader.cold) && lane.reader.seen.Valid())
    && Reload.Valid(EngineOf(d, w))
    && (!lane.torn ==> Reload.ReaderInv(EngineOf(d, w)))
  }

  ghost predicate LaneInv(d: Sys, w: nat)
    requires w < |d.lanes| && w < |d.s.workers|
  {
    && RulesInv(d, w) && AnswersInv(d.s.workers[w].done, d.lanes[w].log) && TxInv(d.s.workers[w].done, d.lanes[w])
    && (d.lanes[w].exited ==> d.s.workers[w].cur.NoPacket?)
  }

  ghost predicate SysInv(d: Sys) {
    && Inv(d.s) && Reload.Valid(Engine(d)) && |d.lanes| == |d.s.workers| == NUM_WORKERS
    && forall w | 0 <= w < NUM_WORKERS :: LaneInv(d, w)
  }

  lemma StartInv(d: Sys, n: nat, slots: nat)
    requires Start(d, n, slots)
    ensures SysInv(d)
  {
    InitInv(d.s, n, slots);
  }

  // ---------------------------------------------------------------- every move keeps it

  /** A lane that the move does not touch, of a worker that it leaves alone. */
  lemma SameLane(d: Sys, d': Sys, v: nat)
    requires v < |d.lanes| && v < |d.s.workers| && LaneInv(d, v)
    requires v < |d'.lanes| && v < |d'.s.workers| && d'.lanes[v] == d.lanes[v] && Engine(d') == Engine(d)
    requires d'.s.workers[v].done == d.s.workers[v].done && d.s.packets <= d'.s.packets
    requires Decided(d.s, v) ==> d'.s.workers[v].cur == d.s.workers[v].cur
    requires d.lanes[v].exited ==> d'.s.workers[v].cur.NoPacket?
    ensures LaneInv(d', v)
  {
  }

  lemma PipeKeepsWorker(s: State, step: Step, w: nat)
    requires Enabled(s, step) && !step.Classify? && w < |s.workers|
    ensures var s' := Do(s, step);
      && |s'.workers| == |s.workers| && s'.workers[w].done == s.workers[w].done && s.packets <= s'.packets
      && (Decided(s, w) ==> s'.workers[w].cur == s.workers[w].cur)
      && (s.workers[w].cur.NoPacket? && step != Dequeue(w) ==> s'.workers[w].cur.NoPacket?)
  {
  }

  lemma PipeKeepsInv(d: Sys, step: Step)
    requires SysInv(d) && CanMove(d, Pipe(step))
    ensures SysInv(Moved(d, Pipe(step)))
  {
    var d' := Moved(d, Pipe(step));
    StepKeepsInv(d.s, step);
    forall w | 0 <= w < NUM_WORKERS ensures |d'.s.workers| == NUM_WORKERS && LaneInv(d', w) {
      assert LaneInv(d, w);
      PipeKeepsWorker(d.s, step, w);
      SameLane(d, d', w);
    }
  }

  /** A step of a reload is the same step for every worker's view of the engine. */
  lemma ControlForAll(d: Sys, part: Reload.Step, w: nat)
    requires CanMove(d, Control(part)) && w < |d.lanes| && Reload.Valid(EngineOf(d, w))
    ensures Reload.Enabled(EngineOf(d, w), part)
    ensures EngineOf(Moved(d, Control(part)), w) == Reload.Do(EngineOf(d, w), part)
  {
  }

  lemma ControlKeepsLane(d: Sys, part: Reload.Step, w: nat)
    requires CanMove(d, Control(part)) && w < |d.lanes| && w < |d.s.workers| && LaneInv(d, w)
    ensures LaneInv(Moved(d, Control(part)), w)
  {
    var e := EngineOf(d, w);
    ControlForAll(d, part, w);
    if !d.lanes[w].torn && !Reload.Overwrites(e, part) { Reload.StepKeepsReader(e, part); }
  }

  lemma ControlKeepsInv(d: Sys, part: Reload.Step)
    requires SysInv(d) && CanMove(d, Control(part))
    ensures SysInv(Moved(d, Control(part)))
  {
    forall w | 0 <= w < NUM_WORKERS ensures LaneInv(Moved(d, Control(part)), w) {
      assert LaneInv(d, w);
      ControlKeepsLane(d, part, w);
    }
  }

  lemma PickKeepsLane(d: Sys, w: nat)
    requires CanMove(d, Pick(w)) && w < |d.s.workers| && Reload.Valid(Engine(d)) && LaneInv(d, w)
    ensures LaneInv(Moved(d, Pick(w)), w)
  {
  }

  lemma TestKeepsLane(d: Sys, w: nat)
    requires CanMove(d, Test(w)) && w < |d.s.workers| && LaneInv(d, w)
    ensures LaneInv(Moved(d, Test(w)), w)
  {
    if !d.lanes[w].torn { Reload.StepKeepsReader(EngineOf(d, w), Reload.TestRule); }
  }

  lemma KeptLast(ids: seq<nat>, log: seq<Answer>, id: nat, a: Answer)
    requires |ids| == |log|
    ensures Kept(ids + [id], log + [a]) == Kept(ids, log) + (if a.action != ACTION_DROP then [id] else [])
  {
    assert (ids + [id])[..|ids|] == ids && (log + [a])[..|log|] == log;
  }

  /** One more answer, for the packet the worker has just finished. */
  lemma AnswerKeepsTx(done: seq<Done>, lane: Lane, e: Done, a: Answer)
    requires TxInv(done, lane) && !lane.exited
    ensures TxInv(done + [e], Answered(lane, e.id, a))
  {
    assert Ids(done + [e]) == Ids(done) + [e.id];
    KeptLast(Ids(done), lane.log, e.id, a);
    var sent := lane.wire + lane.pending;
    assert lane.lost == [] && sent + lane.lost == sent;
    assert sent + [e.id] == lane.wire + (lane.pending + [e.id]) + [];
  }

  lemma AnswerKeepsLog(done: seq<Done>, log: seq<Answer>, e: Done, a: Answer)
    requires AnswersInv(done, log) && (!a.torn ==> a.action == e.action)
    ensures AnswersInv(done + [e], log + [a])
  {
  }

  /** What the pipeline's classification under these rules adds. */
  lemma ClassifiedFacts(s: State, w: nat, rules: seq<Rule>)
    requires Inv(s) && Decided(s, w)
    ensures var s' := Classified(s, w, rules);
      && Inv(s') && |s'.workers| == |s.workers| && s'.packets == s.packets && s'.workers[w].cur.NoPacket?
      && s'.workers[w].done == s.workers[w].done + [Classification(s, w, rules)]
      && forall v | 0 <= v < |s.workers| && v != w :: s'.workers[v] == s.workers[v]
  {
    var s1 := s.(rules := rules);
    assert Inv(s1);
    ClassifyKeepsInv(s1, w);
  }

  function Classification(s: State, w: nat, rules: seq<Rule>): (e: Done)
    requires Decided(s, w)
    ensures e.id == s.workers[w].cur.id && e.rules == rules
    ensures e.action == if RecordOf(s, w).Some? then FirstMatch(rules, RecordOf(s, w).value) else ACTION_DROP
  {
    var cur := s.workers[w].cur;
    Done(cur.id, PathOf(cur.read), rules, ActionFor(rules, s.packets[cur.id].input, cur.read))
  }

  lemma AnswerKeepsInv(d: Sys, w: nat, rules: seq<Rule>, a: Answer, d': Sys)
    requires SysInv(d) && w < NUM_WORKERS && Decided(d.s, w)
    requires !a.torn ==> a.action == Classification(d.s, w, rules).action
    requires d' == d.(s := Classified(d.s, w, rules),
                      lanes := d.lanes[w := Answered(d.lanes[w], d.s.workers[w].cur.id, a)])
    ensures SysInv(d')
  {
    var e := Classification(d.s, w, rules);
    ClassifiedFacts(d.s, w, rules);
    assert LaneInv(d, w);
    AnswerKeepsTx(d.s.workers[w].done, d.lanes[w], e, a);
    AnswerKeepsLog(d.s.workers[w].done, d.lanes[w].log, e, a);
    forall v | 0 <= v < NUM_WORKERS ensures LaneInv(d', v) {
      assert LaneInv(d, v);
      if v != w { SameLane(d, d', v); }
    }
  }

  lemma FinishKeepsInv(d: Sys, w: nat)
    requires SysInv(d) && CanMove(d, Finish(w))
    ensures SysInv(Moved(d, Finish(w)))
  {
    var r := d.lanes[w].reader;
    assert LaneInv(d, w);
    AnswerKeepsInv(d, w, r.seen.Active(), Answer(r.action, d.lanes[w].torn), Moved(d, Finish(w)));
  }

  lemma SendKeepsTx(done: seq<Done>, lane: Lane, n: nat)
    requires TxInv(done, lane) && n <= |lane.pending|
    ensures TxInv(done, lane.(wire := lane.wire + lane.pending[..n], pending := lane.pending[n..]))
  {
    assert lane.pending == lane.pending[..n] + lane.pending[n..];
    assert lane.wire + lane.pending[..n] + lane.pending[n..] == lane.wire + lane.pending;
  }

  lemma ExitKeepsTx(done: seq<Done>, lane: Lane)
    requires TxInv(done, lane) && !lane.exited
    ensures TxInv(done, lane.(lost := lane.pending, pending := [], exited := true))
  {
    assert lane.wire + lane.pending + [] == lane.wire + [] + lane.pending;
  }

  /** Moves that change one lane only. */
  lemma OneLaneKeepsInv(d: Sys, d': Sys, w: nat)
    requires SysInv(d) && w < NUM_WORKERS && |d'.lanes| == NUM_WORKERS
    requires d' == d.(lanes := d.lanes[w := d'.lanes[w]]) && LaneInv(d', w)
    ensures SysInv(d')
  {
    forall v | 0 <= v < NUM_WORKERS ensures LaneInv(d', v) {
      assert LaneInv(d, v);
      if v != w { SameLane(d, d', v); }
    }
  }

  lemma LaneMoveKeepsInv(d: Sys, m: Move)
    requires SysInv(d) && CanMove(d, m) && (m.Pick? || m.Test? || m.Send? || m.Exit?)
    ensures SysInv(Moved(d, m))
  {
    var w := m.worker;
    assert LaneInv(d, w);
    match m {
      case Pick(_) => PickKeepsLane(d, w);
      case Test(_) => TestKeepsLane(d, w);
      case Send(_, n) => SendKeepsTx(d.s.workers[w].done, d.lanes[w], n);
      case Exit(_) => ExitKeepsTx(d.s.workers[w].done, d.lanes[w]);
    }
    OneLaneKeepsInv(d, Moved(d, m), w);
  }

  /** Every move of every thread keeps the invariant of the datapath. */
  lemma MoveKeepsInv(d: Sys, m: Move)
    requires SysInv(d) && CanMove(d, m)
    ensures SysInv(Moved(d, m))
  {
    match m {
      case Pipe(step) => PipeKeepsInv(d, step);
      case Control(part) => ControlKeepsInv(d, part);
      case Finish(w) => FinishKeepsInv(d, w);
      case Unparsable(w) => AnswerKeepsInv(d, w, d.s.rules, Answer(ACTION_DROP, false), Moved(d, m));
      case _ => LaneMoveKeepsInv(d, m);
    }
  }

  lemma {:induction false} MovesKeepInv(d: Sys, moves: seq<Move>)
    requires SysInv(d) && Moves(d, moves).Some?
    ensures SysInv(Moves(d, moves).value)
    decreases moves
  {
    if moves != [] {
      MoveKeepsInv(d, moves[0]);
      MovesKeepInv(Moved(d, moves[0]), moves[1..]);
    }
  }

  // ---------------------------------------------------------------- verdicts

  /** The steps of the pipeline a move stands for: a classification happens under the rules of the
      version the worker picked up. */
  ghost function ProjectedOne(d: Sys, m: Move): seq<Step>
    requires CanMove(d, m)
  {
    match m
    case Pipe(step) => [step]
    case Finish(w) => [SetRules(d.lanes[w].reader.seen.Active()), Classify(w)]
    case Unparsable(w) => [SetRules(d.s.rules), Classify(w)]
    case _ => []
  }

  ghost function Projected(d: Sys, moves: seq<Move>): seq<Step>
    decreases moves
  {
    if moves == [] || !CanMove(d, moves[0]) then []
    else ProjectedOne(d, moves[0]) + Projected(Moved(d, moves[0]), moves[1..])
  }

  lemma {:induction false} RunConcat(s: State, a: seq<Step>, b: seq<Step>)
    requires Run(s, a).Some?
    ensures Run(s, a + b) == Run(Run(s, a).value, b)
    decreases a
  {
    if a == [] {
      assert a + b == b;
    } else {
      assert (a + b)[1..] == a[1..] + b;
      RunConcat(Do(s, a[0]), a[1..], b);
    }
  }

  lemma RunTwo(s: State, w: nat, rules: seq<Rule>)
    requires Decided(s, w)
    ensures Run(s, [SetRules(rules), Classify(w)]) == Some(Classified(s, w, rules))
  {
    var s1 := s.(rules := rules);
    assert Do(s, SetRules(rules)) == s1 && Enabled(s1, Classify(w));
    assert Run(s1, [Classify(w)]) == Run(Do(s1, Classify(w)), []);
    assert [SetRules(rules), Classify(w)][1..] == [Classify(w)];
  }

  lemma ProjectedOneRuns(d: Sys, m: Move)
    requires CanMove(d, m)
    ensures Run(d.s, ProjectedOne(d, m)) == Some(Moved(d, m).s)
  {
    match m {
      case Pipe(step) => assert Run(Do(d.s, step), [step][1..]) == Some(Do(d.s, step));
      case Finish(w) => RunTwo(d.s, w, d.lanes[w].reader.seen.Active());
      case Unparsable(w) => RunTwo(d.s, w, d.s.rules);
      case _ =>
    }
  }

  /** A run of the datapath is a run of the pipeline. */
  lemma {:induction false} ProjectedRuns(d: Sys, moves: seq<Move>)
    requires Moves(d, moves).Some?
    ensures Run(d.s, Projected(d, moves)) == Some(Moves(d, moves).value.s)
    decreases moves
  {
    if moves != [] {
      ProjectedOneRuns(d, moves[0]);
      ProjectedRuns(Moved(d, moves[0]), moves[1..]);
      RunConcat(d.s, ProjectedOne(d, moves[0]), Projected(Moved(d, moves[0]), moves[1..]));
    }
  }

  /** End to end, with reloads at any point: a worker answers with the first match of the packet's
      own 5-tuple under exactly the version it picked up, unless the packet carried another flow's
      stamp and was classified by it, or a load wrote the table during the read. */
  lemma AnswersForItsVersion(d: Sys, moves: seq<Move>, n: nat, slots: nat, w: nat, i: nat)
    requires Start(d, n, slots) && Moves(d, moves).Some?
    requires var d' := Moves(d, moves).value; w < |d'.lanes| && i < |d'.lanes[w].log| && !d'.lanes[w].log[i].torn
    ensures var d' := Moves(d, moves).value;
      && w < |d'.s.workers| && i < |d'.s.workers[w].done|
      && var e := d'.s.workers[w].done[i];
      && e.id < |d'.s.packets|
      && (e.path.ByReparse? || (InWindow(d'.s, e) && !Misstamped(d.s, Projected(d, moves), {}, e.id)) ==>
            d'.lanes[w].log[i].action == OwnVerdict(e.rules, d'.s.packets[e.id].input.key))
  {
    var d' := Moves(d, moves).value;
    StartInv(d, n, slots);
    MovesKeepInv(d, moves);
    assert LaneInv(d', w);
    ProjectedRuns(d, moves);
    PacketGetsItsOwnVerdict(d.s, Projected(d, moves), n, slots, w, i);
  }

  // ---------------------------------------------------------------- order of transmission

  lemma {:induction false} KeptIncreasing(ids: seq<nat>, log: seq<Answer>)
    requires |ids| == |log| && Increasing(ids)
    ensures Increasing(Kept(ids, log)) && forall id | id in Kept(ids, log) :: id in ids
    decreases |log|
  {
    if log != [] {
      var n := |log| - 1;
      KeptIncreasing(ids[..n], log[..n]);
      assert ids == ids[..n] + [ids[n]];
      var init := Kept(ids[..n], log[..n]);
      forall k | 0 <= k < |init| ensures init[k] < ids[n] {
        assert init[k] in ids[..n];
      }
    }
  }

  lemma TxFacts(done: seq<Done>, lane: Lane)
    requires TxInv(done, lane) && Increasing(Ids(done))
    ensures Increasing(lane.wire) && forall i | 0 <= i < |lane.wire| :: lane.wire[i] in Ids(done)
  {
    KeptIncreasing(Ids(done), lane.log);
    var kept := Kept(Ids(done), lane.log);
    assert kept == lane.wire + (lane.pending + lane.lost);
    assert lane.wire == kept[..|lane.wire|];
  }

  /** What a worker sent, in terms of what it has done. */
  lemma SentFacts(d: Sys, w: nat)
    requires SysInv(d) && w < NUM_WORKERS
    ensures Increasing(d.lanes[w].wire)
    ensures forall i | 0 <= i < |d.lanes[w].wire| :: d.lanes[w].wire[i] in Ids(d.s.workers[w].done)
  {
    assert LaneInv(d, w);
    DoneIdsIncrease(d.s, w);
    TxFacts(d.s.workers[w].done, d.lanes[w]);
  }

  /** Every worker transmits in arrival order, whatever the driver takes at a time. */
  lemma SentInArrivalOrder(d: Sys, w: nat, i: nat, j: nat)
    requires SysInv(d) && w < NUM_WORKERS && i < j < |d.lanes[w].wire|
    ensures d.lanes[w].wire[i] < d.lanes[w].wire[j]
  {
    SentFacts(d, w);
  }

  /** A sent packet was stamped for the worker that sent it. */
  lemma SentByStampedWorker(d: Sys, w: nat, i: nat)
    requires SysInv(d) && w < NUM_WORKERS && i < |d.lanes[w].wire|
    ensures d.lanes[w].wire[i] < |d.s.packets| && d.s.packets[d.lanes[w].wire[i]].stamp.worker == w
  {
    SentFacts(d, w);
    assert d.lanes[w].wire[i] in Ids(d.s.workers[w].done);
    var k :| 0 <= k < |d.s.workers[w].done| && Ids(d.s.workers[w].done)[k] == d.lanes[w].wire[i];
    DoneByStampedWorker(d.s, w, k);
  }

  /** From the dispatcher to the wire: of two sent packets of one 5-tuple, both stamped with their
      own flow, both left by the same worker, in the order in which they arrived. */
  lemma FlowLeavesInOrder(d: Sys, v: nat, i: nat, w: nat, j: nat)
    requires SysInv(d) && v < NUM_WORKERS && w < NUM_WORKERS
    requires i < |d.lanes[v].wire| && j < |d.lanes[w].wire|
    requires PacketHonest(d.s, d.lanes[v].wire[i]) && PacketHonest(d.s, d.lanes[w].wire[j])
    ensures var a, b := d.lanes[v].wire[i], d.lanes[w].wire[j];
      d.s.packets[a].input.key == d.s.packets[b].input.key ==> v == w && (a < b <==> i < j)
  {
    SentByStampedWorker(d, v, i);
    SentByStampedWorker(d, w, j);
    FlowAffinity(d.s, d.lanes[v].wire[i]);
    FlowAffinity(d.s, d.lanes[w].wire[j]);
    if v == w && i < j { SentInArrivalOrder(d, v, i, j); }
    if v == w && j < i { SentInArrivalOrder(d, v, j, i); }
  }

  /** Nothing that was to be passed on is lost before the worker exits. */
  lemma NothingLostBeforeExit(d: Sys, w: nat)
    requires SysInv(d) && w < NUM_WORKERS && !d.lanes[w].exited
    ensures |d.lanes[w].log| == |d.s.workers[w].done|
    ensures d.lanes[w].wire + d.lanes[w].pending == Kept(Ids(d.s.workers[w].done), d.lanes[w].log)
  {
    assert LaneInv(d, w);
    assert d.lanes[w].wire + d.lanes[w].pending + [] == d.lanes[w].wire + d.lanes[w].pending;
  }
}
