/** Functions that specify the dispatcher (src/dispatcher.c): handling packets one at a time by
    looking up or adding the flow, and what a burst with one bulk lookup must agree with. */
module DispatcherSpec {
  import opened FlowTypes
  import opened Generation
  import opened FlowPacket
  import opened HashTable
  import opened SlotSeqlock
  import FlowTableSpec
  import FlowTableLaws
  import Pipeline = FlowPipeline

  /** What the dispatcher shares with the other threads. */
  datatype Table = Table(hash: Hash, hot: seq<Hot>, cold: seq<Cold>)

  /** The slot, generation and worker a packet is stamped and routed with. */
  datatype Flow = Flow(position: nat, gen: u32, worker: u8)

  /** How a burst is processed: the clock, the hash function and the library's reclaim batch. */
  datatype Env = Env(tsc: nat, flowHash: Key -> u32, batch: nat)

  const RECLAIM_REPLACEMENT_BUDGET := 4
  const REPLACEMENT_RETRIES := 8
  const EMERGENCY_SCAN_BUDGET := 512

  /** A table after a packet, and the packet's flow; None when it was dropped. */
  datatype Step = Step(table: Table, flow: Option<Flow>)

  function FlowAt(hot: seq<Hot>, p: nat): Flow
    requires p < |hot|
  {
    Flow(p, hot[p].gen, hot[p].worker)
  }

  /** publish_new_flow on the arrays. */
  function Publish(t: Table, p: nat, k: Key, e: Env): Table
    requires p < |t.hot| && p < |t.cold|
  {
    t.(hot := t.hot[p := Hot(e.tsc, NextGen(t.hot[p].gen), Pipeline.WorkerOf(e.flowHash, k))],
       cold := t.cold[p := ColdFromKey(k, e.tsc)])
  }

  function Touched(t: Table, p: nat, tsc: nat): Table
    requires p < |t.hot|
  {
    t.(hot := t.hot[p := t.hot[p].(lastSeen := tsc)])
  }

  /** One packet on its own: look its flow up or add it. */
  function LookupOrAdd(t: Table, k: Key, e: Env): Step {
    if k in t.hash.mapped then
      var p := t.hash.mapped[k];
      if p < |t.hot| then Step(Touched(t, p, e.tsc), Some(FlowAt(t.hot, p))) else Step(t, None)
    else
      var Added(h, p) := AddedKey(t.hash, k, e.batch);
      if 0 <= p < |t.hot| && p < |t.cold| then
        var t' := Publish(t.(hash := h), p, k, e);
        Step(t', Some(FlowAt(t'.hot, p)))
      else Step(t.(hash := h), None)
  }

  /** Packets one after the other. */
  datatype Trace = Trace(table: Table, flows: seq<Option<Flow>>)

  function OneByOne(t: Table, keys: seq<Key>, e: Env): (r: Trace)
    ensures |r.flows| == |keys|
  {
    if keys == [] then Trace(t, [])
    else
      var n := |keys| - 1;
      var before := OneByOne(t, keys[..n], e);
      var step := LookupOrAdd(before.table, keys[n], e);
      Trace(step.table, before.flows + [step.flow])
  }

  lemma OneByOneLast(t: Table, keys: seq<Key>, i: nat, e: Env)
    requires i < |keys|
    ensures var before := OneByOne(t, keys[..i], e);
      var step := LookupOrAdd(before.table, keys[i], e);
      OneByOne(t, keys[..i + 1], e) == Trace(step.table, before.flows + [step.flow])
  {
    assert keys[..i + 1][..i] == keys[..i];
  }

  ghost predicate TableValid(t: Table) {
    HashTable.Valid(t.hash) && |t.hash.keyStore| <= |t.hot| && |t.hot| == |t.cold|
  }

  /** The access-by-access publication of the interleaved model, run without interruption, is
      this update. */
  lemma PublishIsTheRacyOne(t: Table, side: Side, p: nat, k: Key, e: Env)
    requires SideInv(side) && side.writer.Quiet? && side.Has(p) && e.tsc > 0
    requires side.hot == t.hot && side.cold == t.cold
    ensures SideInv(Begin(side, p, Pub(k, e.tsc, Pipeline.WorkerOf(e.flowHash, k))))
    ensures var done := Finish(Begin(side, p, Pub(k, e.tsc, Pipeline.WorkerOf(e.flowHash, k))));
      var t' := Publish(t, p, k, e);
      done.hot == t'.hot && done.cold == t'.cold
  {
    PublicationRefinesUpdate(side, p, Pub(k, e.tsc, Pipeline.WorkerOf(e.flowHash, k)));
  }

  // ---------------------------------------------------------------- the burst's bookkeeping

  /** One entry of the resolved_* arrays. */
  datatype Resolved = Resolved(index: nat, flow: Flow)

  ghost predicate EntryCurrent(t: Table, keys: seq<Key>, r: Resolved) {
    && r.index < |keys| && keys[r.index] in t.hash.mapped && t.hash.mapped[keys[r.index]] == r.flow.position
    && r.flow.position < |t.hot| && FlowAt(t.hot, r.flow.position) == r.flow
  }

  ghost predicate InResolved(keys: seq<Key>, rs: seq<Resolved>, k: Key) {
    exists r :: 0 <= r < |rs| && rs[r].index < |keys| && keys[rs[r].index] == k
  }

  /** What the bulk lookup returned still describes the table, up to the keys added since. */
  ghost predicate PositionCurrent(t: Table, keys: seq<Key>, positions: seq<int>, rs: seq<Resolved>, j: nat)
    requires j < |keys| && j < |positions|
  {
    && (positions[j] >= 0 ==> keys[j] in t.hash.mapped && t.hash.mapped[keys[j]] == positions[j])
    && (positions[j] < 0 && keys[j] in t.hash.mapped ==> InResolved(keys, rs, keys[j]))
  }

  /** After i packets without a successful replacement, the burst is where handling the packets
      one by one would be. */
  ghost predicate Agrees(t0: Table, keys: seq<Key>, e: Env, positions: seq<int>, i: nat, t: Table,
                         flows: seq<Option<Flow>>, rs: seq<Resolved>) {
    && i <= |keys| && |positions| == |keys| && TableValid(t)
    && OneByOne(t0, keys[..i], e) == Trace(t, flows)
    && (forall r | 0 <= r < |rs| :: EntryCurrent(t, keys, rs[r]))
    && (forall j | 0 <= j < |keys| :: PositionCurrent(t, keys, positions, rs, j))
  }

  /** The table after the grace period that follows a replacement. */
  function AfterGrace(h: Hash, batch: nat): Hash {
    Rounds(Quiescent(h, DispatcherActor), RECLAIM_REPLACEMENT_BUDGET, batch)
  }

  /** A table with the victim ring. */
  datatype Stage = Stage(table: Table, ring: seq<nat>)

  /** A failed add, then a replacement: it takes the cached candidates out of the ring and, when
      these removed nothing, tries sampled ones; if some flow went, the add is retried after a
      grace period, otherwise the hash is as it was. */
  ghost predicate ReplacedBy(a: Stage, h': Hash, ring': seq<nat>, position: int, k: Key, batch: nat,
                             batches: seq<seq<nat>>)
    requires |a.table.hot| == |a.table.cold|
  {
    var t := a.table;
    var cached := FlowTableSpec.CachedOf(t.hot, t.cold, a.ring, REPLACEMENT_RETRIES);
    var tried := cached + FlowTableSpec.SampleCandidates(t.hot, t.cold, batches);
    && AddedKey(t.hash, k, batch).position < 0 && ring' == a.ring[|cached|..]
    && FlowTableSpec.SampledAfter(t.hash, t.hot, cached, EMERGENCY_SCAN_BUDGET, batches)
    && if FlowTableSpec.NamedKeys(t.hash, t.hot, tried) == {} then h' == t.hash && position == -1
       else Added(h', position) == AddedKey(AfterGrace(FlowTableSpec.EvictAll(t.hash, t.hot, tried), batch), k, batch)
  }

  /** What the miss branch does to the hash and the ring: one add or, when it fails, a replacement. */
  ghost predicate Gained(a: Stage, h': Hash, ring': seq<nat>, position: int, k: Key, batch: nat)
    requires |a.table.hot| == |a.table.cold|
  {
    if AddedKey(a.table.hash, k, batch).position >= 0
    then Added(h', position) == AddedKey(a.table.hash, k, batch) && ring' == a.ring
    else exists batches :: ReplacedBy(a, h', ring', position, k, batch, batches)
  }

  /** The replacement alone. */
  ghost predicate Evicts(a: Stage, ok: bool, h': Hash, ring': seq<nat>, batch: nat, batches: seq<seq<nat>>)
    requires |a.table.hot| == |a.table.cold|
  {
    var t := a.table;
    var cached := FlowTableSpec.CachedOf(t.hot, t.cold, a.ring, REPLACEMENT_RETRIES);
    var tried := cached + FlowTableSpec.SampleCandidates(t.hot, t.cold, batches);
    && ring' == a.ring[|cached|..]
    && FlowTableSpec.SampledAfter(t.hash, t.hot, cached, EMERGENCY_SCAN_BUDGET, batches)
    && (ok <==> FlowTableSpec.NamedKeys(t.hash, t.hot, tried) != {})
    && h' == if ok then AfterGrace(FlowTableSpec.EvictAll(t.hash, t.hot, tried), batch) else t.hash
  }

  lemma ReplacementGains(a: Stage, ok: bool, mid: Hash, h': Hash, ring': seq<nat>, position: int, k: Key, batch: nat,
                         batches: seq<seq<nat>>)
    requires |a.table.hot| == |a.table.cold| && AddedKey(a.table.hash, k, batch).position < 0
    requires Evicts(a, ok, mid, ring', batch, batches)
    requires if ok then Added(h', position) == AddedKey(mid, k, batch) else h' == mid && position == -1
    ensures Gained(a, h', ring', position, k, batch)
  {
    assert ReplacedBy(a, h', ring', position, k, batch, batches);
  }

  /** A new flow got a slot and was published, or nothing but the hash and the ring changed. */
  ghost predicate PlacedNew(a: Stage, b: Stage, k: Key, flow: Option<Flow>, e: Env) {
    var t, t' := a.table, b.table;
    |t.hot| == |t.cold| &&
    match flow
    case Some(f) =>
      && k in t'.hash.mapped && t'.hash.mapped[k] == f.position
      && Gained(a, t'.hash, b.ring, f.position, k, e.batch)
      && f.position < |t.hot| && t' == Publish(t.(hash := t'.hash), f.position, k, e) && f == FlowAt(t'.hot, f.position)
    case None =>
      && Gained(a, t'.hash, b.ring, -1, k, e.batch)
      && k !in t'.hash.mapped && t'.hot == t.hot && t'.cold == t.cold
  }

  /** The miss branch after the add: publication of the slot, if there is one in range. */
  function Placing(mid: Table, position: int, k: Key, e: Env): Step {
    if 0 <= position < |mid.hot| && position < |mid.cold| then
      var t' := Publish(mid, position, k, e);
      Step(t', Some(FlowAt(t'.hot, position)))
    else Step(mid, None)
  }

  lemma PlacingHolds(a: Stage, mid: Table, ring': seq<nat>, position: int, k: Key, e: Env)
    requires |a.table.hot| == |a.table.cold|
    requires mid == a.table.(hash := mid.hash) && Gained(a, mid.hash, ring', position, k, e.batch)
    requires -1 <= position < |a.table.hot|
    requires if position >= 0 then k in mid.hash.mapped && mid.hash.mapped[k] == position else k !in mid.hash.mapped
    ensures var s := Placing(mid, position, k, e);
      && PlacedNew(a, Stage(s.table, ring'), k, s.flow, e)
      && (Added(mid.hash, position) == AddedKey(a.table.hash, k, e.batch) && k !in a.table.hash.mapped ==>
          LookupOrAdd(a.table, k, e) == s)
  {
  }

  /** A known flow was used: its slot is touched, its stamp handed on. */
  ghost predicate UsedKnown(a: Stage, b: Stage, f: Flow, flow: Option<Flow>, e: Env) {
    flow == Some(f) && f.position < |a.table.hot| && b == a.(table := Touched(a.table, f.position, e.tsc))
  }

  /** The first packet of its flow in a burst: the bulk lookup's hit, or an add. A hit beyond the
      side arrays drops the packet. */
  ghost predicate Places(a: Stage, b: Stage, k: Key, position: int, flow: Option<Flow>, e: Env) {
    if position < 0 then PlacedNew(a, b, k, flow, e)
    else if position < |a.table.hot| then UsedKnown(a, b, FlowAt(a.table.hot, position), flow, e)
    else flow == None && b == a
  }

  /** What handling a packet does in any case, with or without replacement: an entry of the
      burst comes first, then the bulk lookup's hit, then an add. */
  ghost predicate Resolves(a: Stage, b: Stage, keys: seq<Key>, i: nat, position: int, rs: seq<Resolved>,
                           flow: Option<Flow>, e: Env)
    requires i < |keys|
  {
    && (forall r | FirstWith(keys, rs, keys[i], r) :: UsedKnown(a, b, rs[r].flow, flow, e))
    && (!InResolved(keys, rs, keys[i]) ==> Places(a, b, keys[i], position, flow, e))
  }

  /** The entries after packet i: a packet that got a flow, first of its key, becomes one. */
  ghost function Remembered(keys: seq<Key>, rs: seq<Resolved>, i: nat, flow: Option<Flow>): seq<Resolved>
    requires i < |keys|
  {
    if flow.Some? && !InResolved(keys, rs, keys[i]) then rs + [Resolved(i, flow.value)] else rs
  }

  ghost function EntriesOf(keys: seq<Key>, flows: seq<Option<Flow>>): seq<Resolved>
    requires |flows| <= |keys|
  {
    if flows == [] then []
    else
      var n := |flows| - 1;
      Remembered(keys, EntriesOf(keys, flows[..n]), n, flows[n])
  }

  /** Packet i takes the table and the ring from stages[i] to stages[i + 1]. */
  ghost predicate Link(stages: seq<Stage>, keys: seq<Key>, positions: seq<int>, flows: seq<Option<Flow>>, i: nat,
                       e: Env)
    requires i < |flows| < |stages| && |flows| <= |keys| == |positions|
  {
    Resolves(stages[i], stages[i + 1], keys, i, positions[i], EntriesOf(keys, flows[..i]), flows[i], e)
  }

  /** The stages a burst passes through, packet by packet, whatever replacements it needs. */
  ghost predicate Chain(stages: seq<Stage>, keys: seq<Key>, positions: seq<int>, flows: seq<Option<Flow>>, e: Env) {
    && |stages| == |flows| + 1 && |flows| <= |keys| == |positions|
    && forall i | 0 <= i < |flows| :: Link(stages, keys, positions, flows, i, e)
  }

  lemma ChainNext(stages: seq<Stage>, keys: seq<Key>, positions: seq<int>, flows: seq<Option<Flow>>, e: Env,
                  b: Stage, flow: Option<Flow>)
    requires Chain(stages, keys, positions, flows, e) && |flows| < |keys|
    requires var i := |flows|;
      Resolves(stages[i], b, keys, i, positions[i], EntriesOf(keys, flows), flow, e)
    ensures Chain(stages + [b], keys, positions, flows + [flow], e)
    ensures EntriesOf(keys, flows + [flow]) == Remembered(keys, EntriesOf(keys, flows), |flows|, flow)
  {
    var stages', flows' := stages + [b], flows + [flow];
    assert flows'[..|flows|] == flows;
    forall i | 0 <= i < |flows'| ensures Link(stages', keys, positions, flows', i, e) {
      if i < |flows| {
        assert Link(stages, keys, positions, flows, i, e);
        assert flows'[..i] == flows[..i];
      }
    }
  }

  lemma FirstExists(keys: seq<Key>, rs: seq<Resolved>, k: Key, n: nat) returns (r: nat)
    requires n < |rs| && rs[n].index < |keys| && keys[rs[n].index] == k
    ensures FirstWith(keys, rs, k, r)
    decreases n
  {
    if q :| 0 <= q < n && rs[q].index < |keys| && keys[rs[q].index] == k {
      r := FirstExists(keys, rs, k, q);
    } else {
      r := n;
    }
  }

  /** Flow k keeps its slot, or its slot was published. */
  ghost predicate KeptOrPublished(t: Table, h': Hash, k: Key)
    requires k in t.hash.mapped
  {
    var p := t.hash.mapped[k];
    (k in h'.mapped && h'.mapped[k] == p) || (p < |t.hot| && t.hot[p].lastSeen != 0)
  }

  /** What a replacement leaves: no flow moves, and only published ones go. */
  lemma ReplacementFate(t: Table, tried: seq<FlowTableSpec.Candidate>, batch: nat, k: Key)
    requires TableValid(t) && k in t.hash.mapped
    ensures var left := AfterGrace(FlowTableSpec.EvictAll(t.hash, t.hot, tried), batch);
      && HashTable.Valid(left) && |left.keyStore| == |t.hash.keyStore|
      && (k in left.mapped ==> left.mapped[k] == t.hash.mapped[k])
      && KeptOrPublished(t, left, k)
  {
    FlowTableSpec.EvictAllExactly(t.hash, t.hot, tried);
    FlowTableSpec.EvictAllKeepsValid(t.hash, t.hot, tried);
    GraceFacts(FlowTableSpec.EvictAll(t.hash, t.hot, tried), batch);
  }

  lemma GainedFate(a: Stage, h': Hash, ring': seq<nat>, position: int, j: Key, batch: nat, k: Key)
    requires TableValid(a.table) && Gained(a, h', ring', position, j, batch) && k in a.table.hash.mapped
    ensures HashTable.Valid(h') && |h'.keyStore| == |a.table.hash.keyStore| && KeptOrPublished(a.table, h', k)
  {
    if AddedKey(a.table.hash, j, batch).position >= 0 {
      AddKeeps(a.table.hash, h', position, j, batch);
    } else {
      var batches :| ReplacedBy(a, h', ring', position, j, batch, batches);
      ReplacedFate(a, h', ring', position, j, batch, batches, k);
    }
  }

  lemma ReplacedFate(a: Stage, h': Hash, ring': seq<nat>, position: int, j: Key, batch: nat, batches: seq<seq<nat>>,
                     k: Key)
    requires TableValid(a.table) && ReplacedBy(a, h', ring', position, j, batch, batches) && k in a.table.hash.mapped
    ensures HashTable.Valid(h') && |h'.keyStore| == |a.table.hash.keyStore| && KeptOrPublished(a.table, h', k)
  {
    var t := a.table;
    var tried := FlowTableSpec.CachedOf(t.hot, t.cold, a.ring, REPLACEMENT_RETRIES)
               + FlowTableSpec.SampleCandidates(t.hot, t.cold, batches);
    if FlowTableSpec.NamedKeys(t.hash, t.hot, tried) != {} {
      var left := AfterGrace(FlowTableSpec.EvictAll(t.hash, t.hot, tried), batch);
      ReplacementFate(t, tried, batch, k);
      AddKeeps(left, h', position, j, batch);
    }
  }

  lemma AddKeeps(h: Hash, h': Hash, position: int, j: Key, batch: nat)
    requires HashTable.Valid(h) && Added(h', position) == AddedKey(h, j, batch)
    ensures HashTable.Valid(h') && |h'.keyStore| == |h.keyStore|
    ensures forall k | k in h.mapped :: k in h'.mapped && h'.mapped[k] == h.mapped[k]
  {
    AddedKeyFacts(h, j, batch);
  }

  lemma GraceFacts(h: Hash, batch: nat)
    requires HashTable.Valid(h)
    ensures HashTable.Valid(AfterGrace(h, batch)) && AfterGrace(h, batch).mapped == h.mapped
    ensures |AfterGrace(h, batch).keyStore| == |h.keyStore|
    ensures AfterGrace(h, batch) == Reclaim(Quiescent(h, DispatcherActor), 4 * batch)
  {
    var q := Quiescent(h, DispatcherActor);
    ReportKeepsValid(h, DispatcherActor);
    RoundsAreOneReclaim(q, RECLAIM_REPLACEMENT_BUDGET, batch);
    ReclaimKeepsValid(q, RECLAIM_REPLACEMENT_BUDGET * batch);
  }

  /** How far a replacement goes: it takes up to eight pairs from the ring, and samples sixteen times
      four slots exactly when none of these names a mapped, published flow. */
  lemma ReplacementReach(a: Stage, h': Hash, ring': seq<nat>, position: int, k: Key, batch: nat,
                         batches: seq<seq<nat>>)
    requires |a.table.hot| == |a.table.cold| && ReplacedBy(a, h', ring', position, k, batch, batches)
    ensures |ring'| == if |a.ring| > 8 then |a.ring| - 8 else 0
    ensures forall i | 0 <= i < |ring'| :: ring'[i] == a.ring[|a.ring| - |ring'| + i]
    ensures batches == [] <==> exists i | 0 <= i < 8 && i < |a.ring| ::
      FlowTableSpec.Evictable(a.table.hash, a.table.hot,
                              FlowTableSpec.CachedCandidate(a.table.hot, a.table.cold, a.ring[i]))
    ensures batches != [] ==> |batches| == 16
    ensures forall b | 0 <= b < |batches| ::
      |batches[b]| == 4 && forall i | 0 <= i < 4 :: batches[b][i] < |a.table.hot|
  {
    var cached := FlowTableSpec.CachedOf(a.table.hot, a.table.cold, a.ring, REPLACEMENT_RETRIES);
    FlowTableLaws.SampledIff(a.table.hash, a.table.hot, cached, EMERGENCY_SCAN_BUDGET, batches);
    assert forall i | 0 <= i < |cached| ::
      cached[i] == FlowTableSpec.CachedCandidate(a.table.hot, a.table.cold, a.ring[i]);
  }

  /** After a replacement the retry finds a slot exactly when the maintenance thread has passed the
      deletion that is waiting longest: the dispatcher itself has just passed all of them. */
  lemma RetrySucceedsIff(h: Hash, k: Key, batch: nat)
    requires HashTable.Valid(h) && batch > 0 && h.free == [] && k !in h.mapped
    ensures AddedKey(AfterGrace(h, batch), k, batch).position >= 0
       <==> h.dq != [] && (h.maintenanceCnt == 0 || h.maintenanceCnt >= h.dq[0].token)
  {
    var q, after := Quiescent(h, DispatcherActor), AfterGrace(h, batch);
    ReportsRelease(h, DispatcherActor, MaintenanceActor);
    ReportKeepsValid(h, DispatcherActor);
    GraceFacts(h, batch);
    RoundsAreOneReclaim(q, RECLAIM_REPLACEMENT_BUDGET, batch);
    ReclaimCount(q, RECLAIM_REPLACEMENT_BUDGET * batch);
    AddSucceedsIff(after, k, batch);
    if CanReclaim(q) { ReclaimGrowsFree(ReclaimOne(q), RECLAIM_REPLACEMENT_BUDGET * batch - 1); }
  }

  /** One packet: no flow moves, and only a published one can go. */
  lemma PacketFate(a: Stage, b: Stage, keys: seq<Key>, i: nat, position: int, rs: seq<Resolved>, flow: Option<Flow>,
                   e: Env, k: Key)
    requires i < |keys| && TableValid(a.table) && k in a.table.hash.mapped
    requires Resolves(a, b, keys, i, position, rs, flow, e)
    ensures TableValid(b.table) && KeptOrPublished(a.table, b.table.hash, k)
  {
    if InResolved(keys, rs, keys[i]) {
      var n :| 0 <= n < |rs| && rs[n].index < |keys| && keys[rs[n].index] == keys[i];
      var r := FirstExists(keys, rs, keys[i], n);
      assert UsedKnown(a, b, rs[r].flow, flow, e);
    } else if position < 0 {
      GainedFate(a, b.table.hash, b.ring, if flow.Some? then flow.value.position else -1, keys[i], e.batch, k);
    }
  }

  /** What one packet does to last_seen: a slot keeps it or takes the burst's clock, and the slot of
      the packet's own flow shows that clock afterwards. */
  lemma PacketTouches(a: Stage, b: Stage, keys: seq<Key>, i: nat, position: int, rs: seq<Resolved>, flow: Option<Flow>,
                      e: Env)
    requires i < |keys| && Resolves(a, b, keys, i, position, rs, flow, e)
    ensures |b.table.hot| == |a.table.hot|
    ensures forall p | 0 <= p < |a.table.hot| ::
      b.table.hot[p].lastSeen == a.table.hot[p].lastSeen || b.table.hot[p].lastSeen == e.tsc
    ensures flow.Some? ==> flow.value.position < |b.table.hot| && b.table.hot[flow.value.position].lastSeen == e.tsc
  {
    if InResolved(keys, rs, keys[i]) {
      var n :| 0 <= n < |rs| && rs[n].index < |keys| && keys[rs[n].index] == keys[i];
      var r := FirstExists(keys, rs, keys[i], n);
      assert UsedKnown(a, b, rs[r].flow, flow, e);
    }
  }

  /** Over a burst: the slot of every packet that got a flow is in range and shows the burst's
      clock, from that packet on to the end. */
  lemma {:induction false} BurstTouches(stages: seq<Stage>, keys: seq<Key>, positions: seq<int>,
                                        flows: seq<Option<Flow>>, e: Env, n: nat)
    requires Chain(stages, keys, positions, flows, e) && n <= |flows|
    ensures |stages[n].table.hot| == |stages[0].table.hot|
    ensures forall i | 0 <= i < n && flows[i].Some? ::
      flows[i].value.position < |stages[0].table.hot|
      && stages[n].table.hot[flows[i].value.position].lastSeen == e.tsc
    decreases n
  {
    if n > 0 {
      BurstTouches(stages, keys, positions, flows, e, n - 1);
      assert Link(stages, keys, positions, flows, n - 1, e);
      PacketTouches(stages[n - 1], stages[n], keys, n - 1, positions[n - 1], EntriesOf(keys, flows[..n - 1]),
                    flows[n - 1], e);
    }
  }

  /** The records of a new flow: its key, the clock of its creation, the worker its hash selects. */
  lemma NewFlowRecords(a: Stage, b: Stage, k: Key, f: Flow, e: Env)
    requires PlacedNew(a, b, k, Some(f), e)
    ensures var hot, cold := b.table.hot[f.position], b.table.cold[f.position];
      && hot.worker == e.flowHash(k) % 4 && hot.lastSeen == e.tsc && f.gen == hot.gen && f.worker == hot.worker
      && f.gen != 0 && (a.table.hot[f.position].gen != U32_MODULUS - 1 ==> f.gen == a.table.hot[f.position].gen + 1)
      && cold.srcIp == k.ipSrc && cold.dstIp == k.ipDst && cold.srcPort == k.portSrc && cold.dstPort == k.portDst
      && cold.protocol == k.proto && cold.createTime == e.tsc
  {
  }

  /** Flow k sits in slot p at this stage. */
  ghost predicate SitsIn(s: Stage, k: Key, p: nat) {
    k in s.table.hash.mapped && s.table.hash.mapped[k] == p
  }

  /** Over a whole burst, whatever it replaces: a flow either keeps its slot to the end or leaves
      it at a packet before which that slot had been published. */
  lemma {:induction false} BurstFate(stages: seq<Stage>, keys: seq<Key>, positions: seq<int>, flows: seq<Option<Flow>>,
                                     e: Env, k: Key, p: nat, n: nat)
    requires Chain(stages, keys, positions, flows, e) && n <= |flows| && TableValid(stages[0].table)
    requires SitsIn(stages[0], k, p)
    ensures || (TableValid(stages[n].table) && SitsIn(stages[n], k, p))
            || exists i :: 0 <= i < n && SitsIn(stages[i], k, p)
                           && p < |stages[i].table.hot| && stages[i].table.hot[p].lastSeen != 0
    decreases n
  {
    if n > 0 {
      BurstFate(stages, keys, positions, flows, e, k, p, n - 1);
      if TableValid(stages[n - 1].table) && SitsIn(stages[n - 1], k, p) {
        assert Link(stages, keys, positions, flows, n - 1, e);
        PacketFate(stages[n - 1], stages[n], keys, n - 1, positions[n - 1], EntriesOf(keys, flows[..n - 1]),
                   flows[n - 1], e, k);
      }
    }
  }

  lemma FirstIsUnique(keys: seq<Key>, rs: seq<Resolved>, k: Key, r: nat)
    requires forall q | 0 <= q < |rs| :: rs[q].index < |keys|
    requires r < |rs| && keys[rs[r].index] == k && forall q | 0 <= q < r :: keys[rs[q].index] != k
    ensures InResolved(keys, rs, k) && forall q | FirstWith(keys, rs, k, q) :: q == r
  {
  }

  /** Entry r is the first one whose packet has key k. */
  ghost predicate FirstWith(keys: seq<Key>, rs: seq<Resolved>, k: Key, r: int) {
    && 0 <= r < |rs| && rs[r].index < |keys| && keys[rs[r].index] == k
    && forall q | 0 <= q < r && rs[q].index < |keys| :: keys[rs[q].index] != k
  }

  function LookupBulk(h: Hash, keys: seq<Key>): (ps: seq<int>)
    ensures |ps| == |keys| && forall j | 0 <= j < |keys| :: ps[j] == Lookup(h, keys[j])
  {
    seq(|keys|, j requires 0 <= j < |keys| => Lookup(h, keys[j]))
  }

  lemma AgreesStart(t: Table, keys: seq<Key>, e: Env)
    requires TableValid(t)
    ensures Agrees(t, keys, e, LookupBulk(t.hash, keys), 0, t, [], [])
  {
    assert keys[..0] == [];
  }

  /** A packet of a flow this burst has already resolved. */
  lemma AgreesReuse(t0: Table, keys: seq<Key>, e: Env, positions: seq<int>, i: nat, t: Table, flows: seq<Option<Flow>>,
                    rs: seq<Resolved>, r: nat)
    requires Agrees(t0, keys, e, positions, i, t, flows, rs) && i < |keys|
    requires r < |rs| && keys[rs[r].index] == keys[i]
    ensures var f := rs[r].flow;
      && f.position < |t.hot|
      && Agrees(t0, keys, e, positions, i + 1, Touched(t, f.position, e.tsc), flows + [Some(f)], rs)
  {
    assert EntryCurrent(t, keys, rs[r]);
    OneByOneLast(t0, keys, i, e);
    var t' := Touched(t, rs[r].flow.position, e.tsc);
    forall q | 0 <= q < |rs| ensures EntryCurrent(t', keys, rs[q]) {
      assert EntryCurrent(t, keys, rs[q]);
    }
    forall j | 0 <= j < |keys| ensures PositionCurrent(t', keys, positions, rs, j) {
      assert PositionCurrent(t, keys, positions, rs, j);
    }
  }

  lemma MorePositions(t: Table, t': Table, keys: seq<Key>, positions: seq<int>, rs: seq<Resolved>, r: Resolved, j: nat)
    requires j < |keys| && j < |positions| && PositionCurrent(t, keys, positions, rs, j)
    requires t'.hash.mapped == t.hash.mapped
          || (r.index < |keys| && keys[r.index] !in t.hash.mapped
              && t'.hash.mapped == t.hash.mapped[keys[r.index] := r.flow.position])
    ensures PositionCurrent(t', keys, positions, rs + [r], j)
  {
    var rs' := rs + [r];
    if InResolved(keys, rs, keys[j]) {
      var q :| 0 <= q < |rs| && rs[q].index < |keys| && keys[rs[q].index] == keys[j];
      assert rs'[q] == rs[q];
    }
    assert rs'[|rs|] == r;
  }

  /** A packet whose flow the bulk lookup found. */
  lemma AgreesHit(t0: Table, keys: seq<Key>, e: Env, positions: seq<int>, i: nat, t: Table, flows: seq<Option<Flow>>,
                  rs: seq<Resolved>)
    requires Agrees(t0, keys, e, positions, i, t, flows, rs) && i < |keys| && positions[i] >= 0
    ensures positions[i] < |t.hot|
    ensures var p := positions[i];
      Agrees(t0, keys, e, positions, i + 1, Touched(t, p, e.tsc), flows + [Some(FlowAt(t.hot, p))],
             rs + [Resolved(i, FlowAt(t.hot, p))])
  {
    assert PositionCurrent(t, keys, positions, rs, i);
    OneByOneLast(t0, keys, i, e);
    var p := positions[i];
    var t', r := Touched(t, p, e.tsc), Resolved(i, FlowAt(t.hot, p));
    var rs' := rs + [r];
    forall q | 0 <= q < |rs'| ensures EntryCurrent(t', keys, rs'[q]) {
      assert q < |rs| ==> rs'[q] == rs[q] && EntryCurrent(t, keys, rs[q]);
    }
    forall j | 0 <= j < |keys| ensures PositionCurrent(t', keys, positions, rs', j) {
      MorePositions(t, t', keys, positions, rs, r, j);
    }
  }

  /** A hit is in range of the side arrays. */
  lemma AgreesRange(t0: Table, keys: seq<Key>, e: Env, positions: seq<int>, i: nat, t: Table, flows: seq<Option<Flow>>,
                    rs: seq<Resolved>)
    requires Agrees(t0, keys, e, positions, i, t, flows, rs) && i < |keys|
    ensures positions[i] < |t.hot|
  {
    assert PositionCurrent(t, keys, positions, rs, i);
  }

  /** A packet of a flow that is new to the table. */
  lemma AgreesAdd(t0: Table, keys: seq<Key>, e: Env, positions: seq<int>, i: nat, t: Table, flows: seq<Option<Flow>>,
                  rs: seq<Resolved>)
    requires Agrees(t0, keys, e, positions, i, t, flows, rs) && i < |keys|
    requires positions[i] < 0 && !InResolved(keys, rs, keys[i])
    ensures keys[i] !in t.hash.mapped
    ensures var Added(h, p) := AddedKey(t.hash, keys[i], e.batch);
      && (p < 0 ==> h == t.hash && Agrees(t0, keys, e, positions, i + 1, t, flows + [None], rs))
      && (p >= 0 ==>
            && p < |t.hot|
            && var t' := Publish(t.(hash := h), p, keys[i], e);
               Agrees(t0, keys, e, positions, i + 1, t', flows + [Some(FlowAt(t'.hot, p))],
                      rs + [Resolved(i, FlowAt(t'.hot, p))]))
  {
    var k := keys[i];
    assert PositionCurrent(t, keys, positions, rs, i);
    OneByOneLast(t0, keys, i, e);
    AddedKeyFacts(t.hash, k, e.batch);
    var Added(h, p) := AddedKey(t.hash, k, e.batch);
    if p >= 0 {
      var t' := Publish(t.(hash := h), p, k, e);
      var r := Resolved(i, FlowAt(t'.hot, p));
      var rs' := rs + [r];
      forall q | 0 <= q < |rs'| ensures EntryCurrent(t', keys, rs'[q]) {
        if q < |rs| {
          assert rs'[q] == rs[q] && EntryCurrent(t, keys, rs[q]);
          assert t.hash.Occupied(rs[q].flow.position);
        }
      }
      forall j | 0 <= j < |keys| ensures PositionCurrent(t', keys, positions, rs', j) {
        assert PositionCurrent(t, keys, positions, rs, j);
        MorePositions(t, t', keys, positions, rs, r, j);
      }
    }
  }

  // ---------------------------------------------------------------- packets and where they go

  function ParseOf(m: Mbuf): ParseResult {
    ExtractKey(m.data, |m.data|)
  }

  function Ids(ms: seq<Mbuf>): (ids: seq<nat>)
    ensures |ids| == |ms| && forall i | 0 <= i < |ms| :: ids[i] == ms[i].id
  {
    seq(|ms|, i requires 0 <= i < |ms| => ms[i].id)
  }

  function IdSet(ms: seq<Mbuf>): (s: multiset<nat>)
    ensures |s| == |ms|
  {
    multiset(Ids(ms))
  }

  lemma IdSetAppend(a: seq<Mbuf>, b: seq<Mbuf>)
    ensures IdSet(a + b) == IdSet(a) + IdSet(b)
  {
    assert Ids(a + b) == Ids(a) + Ids(b);
  }

  lemma IdSetLast(ms: seq<Mbuf>, m: Mbuf)
    ensures IdSet(ms + [m]) == IdSet(ms) + multiset{m.id}
  {
    assert Ids(ms + [m]) == Ids(ms) + [m.id];
  }

  /** The packets the dispatcher keeps, and their keys. */
  function Parsable(ms: seq<Mbuf>): (ps: seq<Mbuf>)
    ensures |ps| <= |ms|
  {
    if ms == [] then []
    else
      var n := |ms| - 1;
      if ParseOf(ms[n]).ParseOk? then Parsable(ms[..n]) + [ms[n]] else Parsable(ms[..n])
  }

  /** The packets kept are those that spell an unfragmented TCP or UDP frame. */
  lemma {:induction false} ParsableIff(ms: seq<Mbuf>, m: Mbuf)
    ensures m in Parsable(ms) <==> m in ms && exists f :: WellFormed(f) && Serialise(f) == m.data
    decreases |ms|
  {
    if ms != [] {
      var n := |ms| - 1;
      ParsableIff(ms[..n], m);
      assert ms == ms[..n] + [ms[n]];
      if m == ms[n] { FrameIff(m); }
    }
  }

  lemma FrameIff(m: Mbuf)
    ensures ParseOf(m).ParseOk? <==> exists f :: WellFormed(f) && Serialise(f) == m.data
  {
    assert m.data[..|m.data|] == m.data;
    forall f | WellFormed(f) && Serialise(f) == m.data ensures ParseOf(m).ParseOk? {
      ParsesExactlyFrames(m.data, |m.data|, f.key);
    }
    if ParseOf(m).ParseOk? { ParsesExactlyFrames(m.data, |m.data|, ParseOf(m).key); }
  }

  function KeyOf(m: Mbuf): Key {
    if ParseOf(m).ParseOk? then ParseOf(m).key else ZERO_KEY
  }

  function KeysOf(ms: seq<Mbuf>): (ks: seq<Key>)
    ensures |ks| == |ms| && forall i | 0 <= i < |ms| :: ks[i] == KeyOf(ms[i])
  {
    seq(|ms|, i requires 0 <= i < |ms| => KeyOf(ms[i]))
  }

  /** stamp_mbuf_flow */
  function Stamped(m: Mbuf, f: Flow): Mbuf {
    m.(flowIdx := f.position % U32_MODULUS, flowGen := f.gen)
  }

  /** The stamped packets routed to worker w, in arrival order. */
  function Routed(ms: seq<Mbuf>, flows: seq<Option<Flow>>, w: nat): seq<Mbuf>
    requires |ms| == |flows|
  {
    if ms == [] then []
    else
      var n := |ms| - 1;
      var init := Routed(ms[..n], flows[..n], w);
      if flows[n].Some? && flows[n].value.worker == w then init + [Stamped(ms[n], flows[n].value)] else init
  }

  /** The packets that have a flow, and those dropped for want of one. */
  function RoutedIds(ms: seq<Mbuf>, flows: seq<Option<Flow>>): multiset<nat>
    requires |ms| == |flows|
  {
    if ms == [] then multiset{}
    else
      var n := |ms| - 1;
      var init := RoutedIds(ms[..n], flows[..n]);
      if flows[n].Some? then init + multiset{ms[n].id} else init
  }

  lemma RoutedLast(ms: seq<Mbuf>, flows: seq<Option<Flow>>, m: Mbuf, f: Option<Flow>, w: nat)
    requires |ms| == |flows|
    ensures Routed(ms + [m], flows + [f], w)
         == if f.Some? && f.value.worker == w then Routed(ms, flows, w) + [Stamped(m, f.value)]
           else Routed(ms, flows, w)
    ensures RoutedIds(ms + [m], flows + [f])
         == if f.Some? then RoutedIds(ms, flows) + multiset{m.id} else RoutedIds(ms, flows)
  {
    assert (ms + [m])[..|ms|] == ms && (flows + [f])[..|ms|] == flows;
  }

  ghost predicate WorkersInRange(flows: seq<Option<Flow>>) {
    forall i | 0 <= i < |flows| && flows[i].Some? :: flows[i].value.worker < NUM_WORKERS
  }

  lemma AddToOne(a: multiset<nat>, b: multiset<nat>, c: multiset<nat>, d: multiset<nat>, x: multiset<nat>)
    ensures a + x + b + c + d == a + b + c + d + x
    ensures a + (b + x) + c + d == a + b + c + d + x
    ensures a + b + (c + x) + d == a + b + c + d + x
    ensures a + b + c + (d + x) == a + b + c + d + x
  {
  }

  /** How many of the first i packets go to worker w. */
  function RankOf(flows: seq<Option<Flow>>, i: nat, w: nat): (n: nat)
    requires i <= |flows|
  {
    if i == 0 then 0
    else RankOf(flows, i - 1, w) + (if flows[i - 1].Some? && flows[i - 1].value.worker == w then 1 else 0)
  }

  lemma {:induction false} RankOfPrefix(flows: seq<Option<Flow>>, n: nat, i: nat, w: nat)
    requires i <= n <= |flows|
    ensures RankOf(flows[..n], i, w) == RankOf(flows, i, w)
    decreases i
  {
    if i > 0 { RankOfPrefix(flows, n, i - 1, w); }
  }

  /** p is packet m carrying the slot and the generation of flow f, the bytes untouched. */
  predicate Carries(p: Mbuf, m: Mbuf, f: Flow) {
    p.flowIdx == f.position && p.flowGen == f.gen && p.id == m.id && p.len == m.len && p.data == m.data
  }

  /** Packet i is in the list of its flow's worker, behind the earlier packets of that worker, and
      carries its flow. */
  lemma {:induction false} RoutedPacket(ms: seq<Mbuf>, flows: seq<Option<Flow>>, w: nat, i: nat)
    requires |ms| == |flows| && i < |flows| && flows[i].Some? && flows[i].value.worker == w
    requires flows[i].value.position < U32_MODULUS
    ensures RankOf(flows, i, w) < |Routed(ms, flows, w)| == RankOf(flows, |flows|, w)
    ensures Carries(Routed(ms, flows, w)[RankOf(flows, i, w)], ms[i], flows[i].value)
    decreases |ms|
  {
    var n := |ms| - 1;
    RoutedLength(ms, flows, w);
    RoutedLength(ms[..n], flows[..n], w);
    RankOfPrefix(flows, n, n, w);
    if i < n {
      RoutedPacket(ms[..n], flows[..n], w, i);
      RankOfPrefix(flows, n, i, w);
    }
  }

  lemma {:induction false} RoutedLength(ms: seq<Mbuf>, flows: seq<Option<Flow>>, w: nat)
    requires |ms| == |flows|
    ensures |Routed(ms, flows, w)| == RankOf(flows, |flows|, w)
    decreases |ms|
  {
    if ms != [] {
      var n := |ms| - 1;
      RoutedLength(ms[..n], flows[..n], w);
      RankOfPrefix(flows, n, n, w);
    }
  }

  /** Every packet with a flow is in exactly one worker's list. */
  lemma {:induction false} RoutedPartition(ms: seq<Mbuf>, flows: seq<Option<Flow>>)
    requires |ms| == |flows| && WorkersInRange(flows)
    ensures RoutedIds(ms, flows)
         == IdSet(Routed(ms, flows, 0)) + IdSet(Routed(ms, flows, 1)) + IdSet(Routed(ms, flows, 2))
           + IdSet(Routed(ms, flows, 3))
    decreases |ms|
  {
    if ms == [] {
    } else {
      var n := |ms| - 1;
      var ms0, flows0 := ms[..n], flows[..n];
      RoutedPartition(ms0, flows0);
      if flows[n].Some? {
        var w := flows[n].value.worker;
        IdSetLast(Routed(ms0, flows0, w), Stamped(ms[n], flows[n].value));
        AddToOne(IdSet(Routed(ms0, flows0, 0)), IdSet(Routed(ms0, flows0, 1)), IdSet(Routed(ms0, flows0, 2)),
                 IdSet(Routed(ms0, flows0, 3)), multiset{ms[n].id});
        assert w == 0 || w == 1 || w == 2 || w == 3;
      }
    }
  }

  // ---------------------------------------------------------------- packets of a burst in flight

  /** The packets of a burst that have not met their fate after some of them: a packet without a
      flow is freed at once, the others wait in a buffer. */
  function InFlight(ms: seq<Mbuf>, flows: seq<Option<Flow>>): multiset<nat>
    requires |flows| <= |ms|
  {
    if flows == [] then IdSet(ms)
    else
      var n := |flows| - 1;
      var before := InFlight(ms, flows[..n]);
      if flows[n].Some? then before else before - multiset{ms[n].id}
  }

  ghost predicate SplitAt(whole: multiset<nat>, placed: multiset<nat>, left: multiset<nat>) {
    whole == placed + left
  }

  /** They are those placed in a worker's buffer and those not looked at yet. */
  lemma {:induction false} InFlightSplit(ms: seq<Mbuf>, flows: seq<Option<Flow>>)
    requires |flows| <= |ms|
    ensures SplitAt(InFlight(ms, flows), RoutedIds(ms[..|flows|], flows), IdSet(ms[|flows|..]))
    decreases |flows|
  {
    if flows == [] {
      assert ms[..0] == [] && ms[0..] == ms;
    } else {
      var n := |flows| - 1;
      InFlightSplit(ms, flows[..n]);
      RoutedNext(ms, flows, n);
      IdSetNext(ms, n);
      TakeNext(InFlight(ms, flows[..n]), RoutedIds(ms[..n], flows[..n]), RoutedIds(ms[..n + 1], flows), ms[n].id,
               IdSet(ms[n..]), IdSet(ms[n + 1..]), flows[n].Some?);
    }
  }

  lemma RoutedNext(ms: seq<Mbuf>, flows: seq<Option<Flow>>, n: nat)
    requires n + 1 == |flows| <= |ms|
    ensures RoutedIds(ms[..n + 1], flows)
         == if flows[n].Some? then RoutedIds(ms[..n], flows[..n]) + multiset{ms[n].id}
           else RoutedIds(ms[..n], flows[..n])
  {
    assert ms[..n + 1][..n] == ms[..n];
  }

  lemma IdSetNext(ms: seq<Mbuf>, i: nat)
    requires i < |ms|
    ensures IdSet(ms[i..]) == multiset{ms[i].id} + IdSet(ms[i + 1..])
  {
    assert ms[i..] == [ms[i]] + ms[i + 1..];
    IdSetAppend([ms[i]], ms[i + 1..]);
    assert Ids([ms[i]]) == [ms[i].id];
  }

  lemma TakeNext(whole: multiset<nat>, placed: multiset<nat>, placed': multiset<nat>, id: nat, left: multiset<nat>,
                 left': multiset<nat>, keep: bool)
    requires SplitAt(whole, placed, left) && left == multiset{id} + left'
    requires placed' == (if keep then placed + multiset{id} else placed)
    ensures id in whole && SplitAt(if keep then whole else whole - multiset{id}, placed', left')
  {
  }

  /** The next packet is in flight; it stays so exactly when it gets a flow. */
  lemma InFlightNext(ms: seq<Mbuf>, flows: seq<Option<Flow>>, f: Option<Flow>)
    requires |flows| < |ms|
    ensures ms[|flows|].id in InFlight(ms, flows)
    ensures InFlight(ms, flows + [f]) == Settled(InFlight(ms, flows), ms[|flows|].id, f)
  {
    InFlightSplit(ms, flows);
    IdSetNext(ms, |flows|);
    assert (flows + [f])[..|flows|] == flows;
  }

  /** The packets in flight after one of them got a flow or not. */
  function Settled(k: multiset<nat>, id: nat, f: Option<Flow>): multiset<nat> {
    if f.Some? then k else k - multiset{id}
  }

  /** k are the packets in flight. */
  ghost predicate InHand(k: multiset<nat>, ms: seq<Mbuf>, flows: seq<Option<Flow>>) {
    |flows| <= |ms| && forall id {:trigger InFlight(ms, flows)[id]} :: k[id] == InFlight(ms, flows)[id]
  }

  lemma InHandIs(k: multiset<nat>, ms: seq<Mbuf>, flows: seq<Option<Flow>>)
    requires InHand(k, ms, flows)
    ensures k == InFlight(ms, flows)
  {
    assert forall id :: k[id] == InFlight(ms, flows)[id];
  }

  lemma InHandStart(ms: seq<Mbuf>)
    ensures InHand(IdSet(ms), ms, [])
  {
    InFlightEnds(ms, []);
  }

  lemma NextInHand(k: multiset<nat>, ms: seq<Mbuf>, flows: seq<Option<Flow>>)
    requires InHand(k, ms, flows) && |flows| < |ms|
    ensures ms[|flows|].id in k
  {
    InHandIs(k, ms, flows);
    InFlightNext(ms, flows, None);
  }

  lemma InHandNext(k: multiset<nat>, ms: seq<Mbuf>, flows: seq<Option<Flow>>, f: Option<Flow>)
    requires InHand(k, ms, flows) && |flows| < |ms|
    ensures InHand(Settled(k, ms[|flows|].id, f), ms, flows + [f])
  {
    InHandIs(k, ms, flows);
    InFlightNext(ms, flows, f);
  }

  lemma MoveOne(a: multiset<nat>, x: multiset<nat>, b: multiset<nat>)
    ensures a + (x + b) == (a + x) + b == (a + b) + x
  {
  }

  /** The first and the last state of the loop over a burst. */
  lemma InFlightEnds(ms: seq<Mbuf>, flows: seq<Option<Flow>>)
    ensures InFlight(ms, []) == IdSet(ms)
    ensures |flows| == |ms| ==> InFlight(ms, flows) == RoutedIds(ms, flows)
  {
    if |flows| == |ms| {
      InFlightSplit(ms, flows);
      assert ms[..|ms|] == ms && ms[|ms|..] == [];
    }
  }

  /** The worker buffers hold exactly the packets placed so far. */
  ghost predicate Placed(ms: seq<Mbuf>, flows: seq<Option<Flow>>, bufs: seq<seq<Mbuf>>) {
    && |flows| <= |ms| && |bufs| == NUM_WORKERS && WorkersInRange(flows)
    && forall w | 0 <= w < NUM_WORKERS :: bufs[w] == Routed(ms[..|flows|], flows, w)
  }

  ghost predicate AllEmpty(bufs: seq<seq<Mbuf>>) {
    |bufs| == NUM_WORKERS && forall w | 0 <= w < NUM_WORKERS :: bufs[w] == []
  }

  lemma PlacedStart(ms: seq<Mbuf>, bufs: seq<seq<Mbuf>>)
    requires AllEmpty(bufs)
    ensures Placed(ms, [], bufs)
  {
  }

  lemma PlacedNext(ms: seq<Mbuf>, flows: seq<Option<Flow>>, bufs: seq<seq<Mbuf>>, f: Option<Flow>)
    requires Placed(ms, flows, bufs) && |flows| < |ms| && (f.Some? ==> f.value.worker < NUM_WORKERS)
    ensures var m := ms[|flows|];
      Placed(ms, flows + [f],
             if f.Some? then bufs[f.value.worker := bufs[f.value.worker] + [Stamped(m, f.value)]] else bufs)
  {
    var i := |flows|;
    assert ms[..i + 1] == ms[..i] + [ms[i]];
    forall w | 0 <= w < NUM_WORKERS {
      RoutedLast(ms[..i], flows, ms[i], f, w);
    }
  }

  /** What parsing has kept of the first i packets, and what is still to come. */
  function Kept(rx: seq<Mbuf>, i: nat): multiset<nat>
    requires i <= |rx|
  {
    IdSet(Parsable(rx[..i])) + IdSet(rx[i..])
  }

  /** One packet of the parse loop takes the packets in flight from k to k'. */
  ghost predicate ParseStep(m: Mbuf, k: multiset<nat>, k': multiset<nat>) {
    && k == (if ParseOf(m).ParseOk? then k' else k' + multiset{m.id})
    && |k| == |k'| + (if ParseOf(m).ParseOk? then 0 else 1)
  }

  lemma KeptNext(rx: seq<Mbuf>, i: nat)
    requires i < |rx|
    ensures ParseStep(rx[i], Kept(rx, i), Kept(rx, i + 1))
  {
    assert rx[..i + 1][..i] == rx[..i];
    IdSetNext(rx, i);
    IdSetLast(Parsable(rx[..i]), rx[i]);
    MoveOne(IdSet(Parsable(rx[..i])), multiset{rx[i].id}, IdSet(rx[i + 1..]));
  }

  /** The packets in flight before each packet of the parse loop, and after the last one. */
  lemma KeptStages(rx: seq<Mbuf>) returns (stages: seq<multiset<nat>>)
    ensures |stages| == |rx| + 1 && stages[0] == IdSet(rx) && stages[|rx|] == IdSet(Parsable(rx))
    ensures forall i | 0 <= i < |rx| :: ParseStep(rx[i], stages[i], stages[i + 1])
  {
    stages := seq(|rx| + 1, i requires 0 <= i <= |rx| => Kept(rx, i));
    forall i | 0 <= i < |rx| ensures ParseStep(rx[i], stages[i], stages[i + 1]) {
      KeptNext(rx, i);
    }
    assert rx[0..] == rx && rx[..|rx|] == rx && rx[|rx|..] == [] && rx[..0] == [];
  }

  lemma ParsableNext(rx: seq<Mbuf>, i: nat)
    requires i < |rx|
    ensures Parsable(rx[..i + 1])
         == if ParseOf(rx[i]).ParseOk? then Parsable(rx[..i]) + [rx[i]] else Parsable(rx[..i])
    ensures KeysOf(Parsable(rx[..i + 1]))
         == if ParseOf(rx[i]).ParseOk? then KeysOf(Parsable(rx[..i])) + [ParseOf(rx[i]).key]
           else KeysOf(Parsable(rx[..i]))
  {
    assert rx[..i + 1][..i] == rx[..i];
  }

  /** All packets in some buffers. */
  function BufferIds(bufs: seq<seq<Mbuf>>): multiset<nat> {
    if bufs == [] then multiset{} else IdSet(bufs[0]) + BufferIds(bufs[1..])
  }

  lemma BufferIdsNext(bufs: seq<seq<Mbuf>>, w: nat)
    requires w < |bufs|
    ensures BufferIds(bufs[w..]) == IdSet(bufs[w]) + BufferIds(bufs[w + 1..])
    ensures |BufferIds(bufs[w..])| == |bufs[w]| + |BufferIds(bufs[w + 1..])|
  {
    assert bufs[w..][1..] == bufs[w + 1..];
  }

  lemma {:induction false} BufferIdsGrow(bufs: seq<seq<Mbuf>>, w: nat, more: seq<Mbuf>)
    requires w < |bufs|
    ensures BufferIds(bufs[w := bufs[w] + more]) == BufferIds(bufs) + IdSet(more)
    decreases w
  {
    var bufs' := bufs[w := bufs[w] + more];
    if w == 0 {
      IdSetAppend(bufs[0], more);
      assert bufs'[1..] == bufs[1..];
    } else {
      BufferIdsGrow(bufs[1..], w - 1, more);
      assert bufs'[1..] == bufs[1..][w - 1 := bufs[1..][w - 1] + more];
    }
  }

  /** A buffer's packets part into those the ring takes and those that are freed. */
  lemma SplitBuffer(freed: multiset<nat>, enqueued: multiset<nat>, accepted: seq<Mbuf>, left: seq<Mbuf>,
                    rest: multiset<nat>)
    ensures freed + enqueued + (IdSet(accepted + left) + rest)
      == freed + (enqueued + IdSet(accepted)) + (IdSet(left) + rest)
  {
    IdSetAppend(accepted, left);
  }

  lemma PlacedIds(ms: seq<Mbuf>, flows: seq<Option<Flow>>, bufs: seq<seq<Mbuf>>)
    requires Placed(ms, flows, bufs) && |flows| == |ms|
    ensures InFlight(ms, flows) == BufferIds(bufs)
    ensures forall w | 0 <= w < NUM_WORKERS :: bufs[w] == Routed(ms, flows, w)
  {
    assert ms[..|ms|] == ms;
    InFlightEnds(ms, flows);
    RoutedPartition(ms, flows);
    var b0, b1, b2 := bufs[1..], bufs[2..], bufs[3..];
    assert b0[1..] == b1 && b1[1..] == b2 && b2[1..] == [];
    FourTerms(IdSet(bufs[0]), IdSet(bufs[1]), IdSet(bufs[2]), IdSet(bufs[3]));
    assert BufferIds(b2) == IdSet(bufs[3]) + BufferIds([]);
    assert BufferIds(b1) == IdSet(bufs[2]) + BufferIds(b2);
    assert BufferIds(b0) == IdSet(bufs[1]) + BufferIds(b1);
    assert BufferIds(bufs) == IdSet(bufs[0]) + BufferIds(b0);
  }

  lemma FourTerms(a: multiset<nat>, b: multiset<nat>, c: multiset<nat>, d: multiset<nat>)
    ensures a + (b + (c + (d + multiset{}))) == a + b + c + d
  {
  }

  // ---------------------------------------------------------------- what one-by-one handling does

  ghost predicate PlacedKey(keys: seq<Key>, flows: seq<Option<Flow>>, k: Key) {
    exists i :: 0 <= i < |keys| && i < |flows| && flows[i].Some? && keys[i] == k
  }

  /** The stamp of packet i is the slot, generation and worker its key has in the end. */
  ghost predicate StampStands(t: Table, k: Key, f: Option<Flow>) {
    f.Some? ==> k in t.hash.mapped && t.hash.mapped[k] == f.value.position && f.value.position < |t.hot|
                && FlowAt(t.hot, f.value.position) == f.value
  }

  /** r has the flows of t, in the same slots, and those of the placed keys. */
  ghost predicate Gains(t: Hash, r: Hash, keys: seq<Key>, flows: seq<Option<Flow>>) {
    && (forall k :: k in r.mapped <==> k in t.mapped || PlacedKey(keys, flows, k))
    && (forall k | k in t.mapped :: r.mapped[k] == t.mapped[k])
  }

  lemma GainsOne(t: Hash, mid: Hash, r: Hash, keys: seq<Key>, flows: seq<Option<Flow>>)
    requires keys != [] && |flows| == |keys| && Gains(t, mid, keys[..|keys| - 1], flows[..|keys| - 1])
    requires r.mapped.Keys
      == (if flows[|keys| - 1].Some? then mid.mapped.Keys + {keys[|keys| - 1]} else mid.mapped.Keys)
    requires forall k | k in mid.mapped :: r.mapped[k] == mid.mapped[k]
    ensures Gains(t, r, keys, flows)
  {
    forall k ensures k in r.mapped <==> k in t.mapped || PlacedKey(keys, flows, k) {
      PlacedKeyLast(keys, flows, k);
      assert k in r.mapped <==> k in r.mapped.Keys;
      assert k in mid.mapped <==> k in mid.mapped.Keys;
    }
  }

  /** What a burst does to the table: exactly the placed keys are added, and every known flow
      stays where it is. */
  lemma {:induction false} OneByOneAddsPlacedKeys(t: Table, keys: seq<Key>, e: Env)
    requires TableValid(t)
    ensures var r := OneByOne(t, keys, e);
      TableValid(r.table) && Gains(t.hash, r.table.hash, keys, r.flows)
    decreases |keys|
  {
    if keys == [] {
    } else {
      var n := |keys| - 1;
      OneByOneAddsPlacedKeys(t, keys[..n], e);
      var before, r := OneByOne(t, keys[..n], e), OneByOne(t, keys, e);
      StepAddsOneKey(before.table, keys[n], e);
      assert r.flows[..n] == before.flows;
      GainsOne(t.hash, before.table.hash, r.table.hash, keys, r.flows);
    }
  }

  lemma {:induction false} OneByOneValid(t: Table, keys: seq<Key>, e: Env)
    requires TableValid(t)
    ensures TableValid(OneByOne(t, keys, e).table)
    decreases |keys|
  {
    if keys != [] {
      var n := |keys| - 1;
      OneByOneValid(t, keys[..n], e);
      StepAddsOneKey(OneByOne(t, keys[..n], e).table, keys[n], e);
    }
  }

  ghost predicate AllStand(t: Table, keys: seq<Key>, flows: seq<Option<Flow>>) {
    |keys| == |flows| && forall i | 0 <= i < |keys| :: StampStands(t, keys[i], flows[i])
  }

  ghost predicate KeepsStamps(t: Table, t': Table) {
    forall j, f | StampStands(t, j, f) :: StampStands(t', j, f)
  }

  lemma StandOne(mid: Table, r: Table, keys: seq<Key>, flows: seq<Option<Flow>>)
    requires keys != [] && |flows| == |keys| && AllStand(mid, keys[..|keys| - 1], flows[..|keys| - 1])
    requires KeepsStamps(mid, r) && StampStands(r, keys[|keys| - 1], flows[|keys| - 1])
    ensures AllStand(r, keys, flows)
  {
    var n := |keys| - 1;
    forall i | 0 <= i < |keys| ensures StampStands(r, keys[i], flows[i]) {
      if i < n {
        assert StampStands(mid, keys[..n][i], flows[..n][i]);
      }
    }
  }

  /** All packets of one key in a burst carry the same stamp, and it still stands at the end. */
  lemma {:induction false} OneByOneStampsStand(t: Table, keys: seq<Key>, e: Env)
    requires TableValid(t)
    ensures AllStand(OneByOne(t, keys, e).table, keys, OneByOne(t, keys, e).flows)
    decreases |keys|
  {
    if keys == [] {
    } else {
      var n := |keys| - 1;
      OneByOneStampsStand(t, keys[..n], e);
      var before, r := OneByOne(t, keys[..n], e), OneByOne(t, keys, e);
      OneByOneValid(t, keys[..n], e);
      StepKeepsStamps(before.table, keys[n], e);
      assert r.flows[..n] == before.flows;
      StandOne(before.table, r.table, keys, r.flows);
    }
  }

  lemma PlacedKeyLast(keys: seq<Key>, flows: seq<Option<Flow>>, k: Key)
    requires keys != [] && |flows| == |keys|
    ensures var n := |keys| - 1;
      PlacedKey(keys, flows, k) <==> PlacedKey(keys[..n], flows[..n], k) || (flows[n].Some? && keys[n] == k)
  {
    var n := |keys| - 1;
    if PlacedKey(keys[..n], flows[..n], k) {
      var i :| 0 <= i < n && flows[..n][i].Some? && keys[..n][i] == k;
      assert flows[i].Some? && keys[i] == k;
    }
    if PlacedKey(keys, flows, k) {
      var i :| 0 <= i < |keys| && flows[i].Some? && keys[i] == k;
      assert i < n ==> flows[..n][i].Some? && keys[..n][i] == k;
    }
  }

  lemma StepAddsOneKey(t: Table, k: Key, e: Env)
    requires TableValid(t)
    ensures var s := LookupOrAdd(t, k, e);
      && TableValid(s.table)
      && s.table.hash.mapped.Keys == (if s.flow.Some? then t.hash.mapped.Keys + {k} else t.hash.mapped.Keys)
      && (forall j | j in t.hash.mapped :: s.table.hash.mapped[j] == t.hash.mapped[j])
      && StampStands(s.table, k, s.flow)
  {
    AddedKeyFacts(t.hash, k, e.batch);
  }

  /** A stamp that stands is not disturbed by the next packet, whatever its flow. */
  lemma StepKeepsStamps(t: Table, k: Key, e: Env)
    requires TableValid(t)
    ensures var s := LookupOrAdd(t, k, e);
      KeepsStamps(t, s.table) && StampStands(s.table, k, s.flow)
  {
    StepAddsOneKey(t, k, e);
    forall j, f | StampStands(t, j, f) ensures StampStands(LookupOrAdd(t, k, e).table, j, f) {
      StampSurvives(t, k, e, j, f);
    }
  }

  lemma StampSurvives(t: Table, k: Key, e: Env, j: Key, f: Option<Flow>)
    requires TableValid(t) && StampStands(t, j, f)
    ensures StampStands(LookupOrAdd(t, k, e).table, j, f)
  {
    AddedKeyFacts(t.hash, k, e.batch);
    assert f.Some? ==> t.hash.Occupied(f.value.position);
  }
}
