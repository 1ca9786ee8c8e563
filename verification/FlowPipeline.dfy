/** The whole packet pipeline as one interleaved state machine: the dispatcher's burst loop
    (src/dispatcher.c), the maintenance thread's deletions (src/stats.c, src/flow_table.c) and
    the workers' validate/copy/classify loop (src/worker.c).

    One step is one memory access of a slot, one atomic hash operation or a piece of
    thread-local work. Any enabled step of any thread may come next. */
module FlowPipeline {
  import opened FlowTypes
  import opened Generation
  import opened FlowPacket
  import opened RuleEngine
  import opened HashTable
  import opened SlotSeqlock

  /** A received packet that the dispatcher parsed. */
  datatype Input = Input(data: seq<u8>, key: Key)

  /** A stamped packet; packets are numbered in the order of stamping, which is arrival order. */
  datatype Packet = Packet(input: Input, stamp: Stamp)

  /** One entry of the resolved_* arrays. */
  datatype Resolved = Resolved(index: nat, stamp: Stamp)

  /** Program points of the dispatcher. Evicting/Deleting carry the number of flows the
      current replacement has removed so far. */
  datatype Pc =
    | Idle
    | LookingUp                 // inside the bulk lookup
    | Ready                     // about to handle burst[next]
    | Evicting(evicted: nat)
    | Deleting(evicted: nat, victim: Key, slot: nat, gen: u32)  // a candidate passed validation
    | Retry                     // after a successful replacement
    | Publishing
    | Enqueueing(worker: nat)

  datatype Disp = Disp(
    pc: Pc, burst: seq<Input>, positions: seq<int>, next: nat, resolved: seq<Resolved>,
    replaced: bool,             // a replacement succeeded since the bulk lookup
    tsc: nat, buffers: seq<seq<nat>>)

  datatype Path = BySnapshot(at: nat) | ByReparse(second: bool)

  /** A classified packet: how its record was obtained, the rules in force, the action. */
  datatype Done = Done(id: nat, path: Path, rules: seq<Rule>, action: u8)

  datatype Cur = NoPacket | Current(id: nat, read: Read)

  datatype WorkerState = WorkerState(done: seq<Done>, cur: Cur, ring: seq<nat>)

  /** flows_created, flows_deleted, and the flows a replacement removed beyond the one it counts. */
  datatype Counters = Counters(created: nat, deleted: nat, surplus: nat)

  /** held: the (key pointer, slot) pairs the maintenance thread keeps from its iterator. */
  datatype State = State(
    hash: Hash, side: Side, disp: Disp, held: seq<(Key, nat)>, workers: seq<WorkerState>,
    packets: seq<Packet>, rules: seq<Rule>, flowHash: Key -> u32, counters: Counters)

  datatype Step =
    | StartBurst(inputs: seq<Input>, tsc: nat)
    | LookupNext
    | ReuseResolved(entry: nat)
    | UseHit
    | AddFlow
    | AddFails
    | ValidateVictim(position: nat, gen: u32)
    | DeleteVictim
    | EndReplacement
    | RetryFails
    | Write
    | EndPackets
    | Enqueue(sent: nat)
    | EmptyPoll
    | GoOffline
    | GoOnline
    | Observe(key: Key)
    | DeleteHeld(entry: nat)
    | MaintenanceQuiescent
    | ReclaimStep
    | Dequeue(worker: nat)
    | CheckFirst(worker: nat)
    | Copy(worker: nat, field: Field)
    | CheckSecond(worker: nat)
    | Classify(worker: nat)
    | SetRules(rules: seq<Rule>)

  const NO_BUFFERS: seq<seq<nat>> := [[], [], [], []]
  const IDLE_WORKER := WorkerState([], NoPacket, [])

  function WorkerOf(flowHash: Key -> u32, k: Key): u8 {
    flowHash(k) % NUM_WORKERS
  }

  /** Start of a run: n hash slots, `slots` side-array entries, dispatcher registered. */
  ghost predicate Init(s: State, n: nat, slots: nat) {
    && n <= slots
    && s.hash == Quiescent(EmptyHash(n), DispatcherActor)
    && s.side == ZeroSide(slots)
    && s.disp == Disp(Idle, [], [], 0, [], false, 0, NO_BUFFERS)
    && s.held == []
    && s.workers == [IDLE_WORKER, IDLE_WORKER, IDLE_WORKER, IDLE_WORKER]
    && s.packets == []
    && s.counters == Counters(0, 0, 0)
  }

  // ---------------------------------------------------------------- dispatcher steps

  predicate HasNext(d: Disp) {
    d.next < |d.burst| && d.next < |d.positions|
  }

  function NextKey(d: Disp): Key
    requires HasNext(d)
  {
    d.burst[d.next].key
  }

  /** Some packet of this burst with key k was resolved already. */
  ghost predicate Seen(d: Disp, k: Key) {
    exists r :: 0 <= r < |d.resolved| && d.resolved[r].index < |d.burst| && d.burst[d.resolved[r].index].key == k
  }

  /** find_resolved_duplicate returned this entry. */
  ghost predicate IsDuplicate(d: Disp, r: nat)
    requires HasNext(d)
  {
    && r < |d.resolved| && d.resolved[r].index < |d.burst|
    && d.burst[d.resolved[r].index].key == NextKey(d)
  }

  /** stamp_mbuf_flow, then the packet goes to the buffer of the stamp's worker. */
  function StampNext(s: State, t: Stamp): State
    requires HasNext(s.disp) && t.worker < |s.disp.buffers|
  {
    var d, id := s.disp, |s.packets|;
    s.(packets := s.packets + [Packet(d.burst[d.next], t)],
       disp := d.(pc := Ready, next := d.next + 1, buffers := d.buffers[t.worker := d.buffers[t.worker] + [id]]))
  }

  function Remember(s: State, t: Stamp): State {
    s.(disp := s.disp.(resolved := s.disp.resolved + [Resolved(s.disp.next, t)]))
  }

  /** The stamp that names the latest publication of slot p. */
  function CurrentStamp(side: Side, p: nat): Stamp
    requires side.Has(p)
  {
    Stamp(p, side.hot[p].gen, side.hot[p].worker, |side.log[p]|)
  }

  function DropNext(s: State): State {
    s.(disp := s.disp.(pc := Ready, next := s.disp.next + 1))
  }

  function AddSlot(h: Hash, k: Key): nat
    requires k in h.mapped || h.free != []
  {
    if k in h.mapped then h.mapped[k] else h.free[0]
  }

  /** rte_hash_add_key succeeds and publish_new_flow begins. */
  function DoAdd(s: State): State
    requires HasNext(s.disp)
    requires NextKey(s.disp) in s.hash.mapped || (s.hash.free != [] && s.hash.free[0] < |s.hash.keyStore|)
  {
    var k := NextKey(s.disp);
    s.(hash := if k in s.hash.mapped then s.hash else Insert(s.hash, k),
       side := Begin(s.side, AddSlot(s.hash, k), Pub(k, s.disp.tsc, WorkerOf(s.flowHash, k))),
       disp := s.disp.(pc := Publishing))
  }

  /** One memory access of publish_new_flow; after the last one the packet is stamped. */
  function DoWrite(s: State): State
    requires CanWrite(s.side) && HasNext(s.disp)
    requires s.side.writer.stage.SetLastSeen? ==> s.side.hot[s.side.writer.slot].worker < |s.disp.buffers|
  {
    var p := s.side.writer.slot;
    var s1 := s.(side := WriterStep(s.side));
    if s1.side.writer.Busy? then s1
    else
      var t := CurrentStamp(s1.side, p);
      StampNext(Remember(s1, t), t).(counters := s.counters.(created := s.counters.created + 1))
  }

  function DoHit(s: State, p: nat): State
    requires HasNext(s.disp) && s.side.Has(p) && s.side.hot[p].worker < |s.disp.buffers|
  {
    var t := CurrentStamp(s.side, p);
    StampNext(Remember(s.(side := Touch(s.side, p, s.disp.tsc)), t), t)
  }

  function DoReuse(s: State, t: Stamp): State
    requires HasNext(s.disp) && s.side.Has(t.slot) && t.worker < |s.disp.buffers|
  {
    StampNext(s.(side := Touch(s.side, t.slot, s.disp.tsc)), t)
  }

  function DoEnqueue(s: State, sent: nat): State
    requires s.disp.pc.Enqueueing? && s.disp.pc.worker < |s.workers| && s.disp.pc.worker < |s.disp.buffers|
    requires sent <= |s.disp.buffers[s.disp.pc.worker]|
  {
    var d, w := s.disp, s.disp.pc.worker;
    var s1 := s.(workers := s.workers[w := s.workers[w].(ring := s.workers[w].ring + d.buffers[w][..sent])]);
    if w + 1 < NUM_WORKERS then
      s1.(disp := d.(pc := Enqueueing(w + 1), buffers := d.buffers[w := []]))
    else
      s1.(disp := Disp(Idle, [], [], 0, [], false, 0, d.buffers[w := []]), hash := Quiescent(s.hash, DispatcherActor))
  }

  function DoEndReplacement(s: State): State
    requires s.disp.pc.Evicting?
  {
    var n := s.disp.pc.evicted;
    if n == 0 then DropNext(s)
    else
      s.(disp := s.disp.(pc := Retry, replaced := true), hash := Quiescent(s.hash, DispatcherActor),
         counters := s.counters.(deleted := s.counters.deleted + 1, surplus := s.counters.surplus + n - 1))
  }

  function DoDeleteVictim(s: State): State
    requires s.disp.pc.Deleting?
  {
    var pc := s.disp.pc;
    var n := if pc.victim in s.hash.mapped then pc.evicted + 1 else pc.evicted;
    s.(hash := Del(s.hash, pc.victim), disp := s.disp.(pc := Evicting(n)))
  }

  /** candidate_delete_if_valid up to the deletion, for the cached pair (position, gen); the key
      is rebuilt from the cold array. */
  predicate VictimValid(s: State, position: nat, gen: u32) {
    && s.side.Has(position)
    && Lookup(s.hash, KeyFromCold(s.side.cold[position])) == position
    && s.side.hot[position].gen == gen
    && s.side.hot[position].lastSeen != 0
  }

  // ---------------------------------------------------------------- maintenance and worker steps

  /** flush_expired_batch for one entry: the key is read through the retained pointer. */
  function DoDeleteHeld(s: State, p: nat): State
    requires p < |s.hash.keyStore|
  {
    var k := s.hash.keyStore[p];
    s.(hash := Del(s.hash, k),
       counters := if k in s.hash.mapped then s.counters.(deleted := s.counters.deleted + 1) else s.counters)
  }

  function SetWorkerState(s: State, w: nat, ws: WorkerState): State
    requires w < |s.workers|
  {
    s.(workers := s.workers[w := ws])
  }

  function DoDequeue(s: State, w: nat): State
    requires w < |s.workers| && s.workers[w].ring != []
  {
    var ws := s.workers[w];
    SetWorkerState(s, w, ws.(cur := Current(ws.ring[0], Unchecked), ring := ws.ring[1..]))
  }

  function DoRead(s: State, w: nat, read: Read): State
    requires w < |s.workers| && s.workers[w].cur.Current?
  {
    SetWorkerState(s, w, s.workers[w].(cur := Current(s.workers[w].cur.id, read)))
  }

  /** The record the worker classifies with; a packet that cannot be re-parsed is dropped. */
  function ActionFor(rules: seq<Rule>, input: Input, read: Read): u8
    requires read.Snapshot? || read.Reparse?
  {
    match read
    case Snapshot(buf, _) => FirstMatch(rules, buf)
    case Reparse(_) =>
      match ExtractCold(input.data, |input.data|)
      case Some(cold) => FirstMatch(rules, cold)
      case None => ACTION_DROP
  }

  function PathOf(read: Read): Path
    requires read.Snapshot? || read.Reparse?
  {
    if read.Snapshot? then BySnapshot(read.at) else ByReparse(read.second)
  }

  function DoClassify(s: State, w: nat): State
    requires w < |s.workers| && s.workers[w].cur.Current? && s.workers[w].cur.id < |s.packets|
    requires s.workers[w].cur.read.Snapshot? || s.workers[w].cur.read.Reparse?
  {
    var ws := s.workers[w];
    var id, read := ws.cur.id, ws.cur.read;
    var action := ActionFor(s.rules, s.packets[id].input, read);
    SetWorkerState(s, w, ws.(cur := NoPacket, done := ws.done + [Done(id, PathOf(read), s.rules, action)]))
  }

  /** The stamp of the packet worker w is handling. */
  predicate Handling(s: State, w: nat) {
    w < |s.workers| && s.workers[w].cur.Current? && s.workers[w].cur.id < |s.packets|
  }

  function CurStamp(s: State, w: nat): Stamp
    requires Handling(s, w)
  {
    s.packets[s.workers[w].cur.id].stamp
  }

  ghost predicate Enabled(s: State, step: Step) {
    var d := s.disp;
    match step
    case StartBurst(inputs, tsc) =>
      && d.pc.Idle? && 0 < |inputs| <= BURST_SIZE && tsc > 0
      && forall i | 0 <= i < |inputs| :: ExtractKey(inputs[i].data, |inputs[i].data|) == ParseOk(inputs[i].key)
    case LookupNext => d.pc.LookingUp? && |d.positions| < |d.burst|
    case ReuseResolved(r) =>
      d.pc.Ready? && HasNext(d) && IsDuplicate(d, r) && s.side.Has(d.resolved[r].stamp.slot) &&
      d.resolved[r].stamp.worker < |d.buffers|
    case UseHit =>
      d.pc.Ready? && HasNext(d) && !Seen(d, NextKey(d)) && d.positions[d.next] >= 0 &&
      s.side.Has(d.positions[d.next]) && s.side.hot[d.positions[d.next]].worker < |d.buffers|
    case AddFlow =>
      (d.pc.Ready? || d.pc.Retry?) && HasNext(d) && !Seen(d, NextKey(d)) && d.positions[d.next] < 0 &&
      (NextKey(d) in s.hash.mapped || (s.hash.free != [] && s.hash.free[0] < |s.hash.keyStore|))
    case AddFails =>
      d.pc.Ready? && HasNext(d) && !Seen(d, NextKey(d)) && d.positions[d.next] < 0 && NextKey(d) !in s.hash.mapped
    case ValidateVictim(position, gen) => d.pc.Evicting? && VictimValid(s, position, gen)
    case DeleteVictim => d.pc.Deleting?
    case EndReplacement => d.pc.Evicting?
    case RetryFails => d.pc.Retry? && HasNext(d) && NextKey(d) !in s.hash.mapped
    case Write =>
      d.pc.Publishing? && HasNext(d) && CanWrite(s.side) &&
      (s.side.writer.stage.SetLastSeen? ==> s.side.hot[s.side.writer.slot].worker < |d.buffers|)
    case EndPackets => d.pc.Ready? && d.next == |d.burst|
    case Enqueue(sent) =>
      d.pc.Enqueueing? && d.pc.worker < |s.workers| && d.pc.worker < |d.buffers| && sent <= |d.buffers[d.pc.worker]|
    case EmptyPoll => d.pc.Idle?
    case GoOffline => true
    case GoOnline => s.hash.maintenanceCnt == 0
    case Observe(k) => s.hash.maintenanceCnt > 0 && k in s.hash.mapped
    case DeleteHeld(i) =>
      && i < |s.held| && s.held[i].1 < |s.hash.keyStore| && s.side.Has(s.held[i].1)
      && s.side.hot[s.held[i].1].lastSeen != 0
    case MaintenanceQuiescent => s.hash.maintenanceCnt > 0
    case ReclaimStep => CanReclaim(s.hash)
    case Dequeue(w) => w < |s.workers| && s.workers[w].cur.NoPacket? && s.workers[w].ring != []
    case CheckFirst(w) => Handling(s, w) && s.workers[w].cur.read.Unchecked?
    case Copy(w, f) => Handling(s, w) && s.workers[w].cur.read.Copying? && s.side.Has(CurStamp(s, w).slot)
    case CheckSecond(w) => Handling(s, w) && CopiedAll(s.workers[w].cur.read) && s.side.Has(CurStamp(s, w).slot)
    case Classify(w) => Handling(s, w) && (s.workers[w].cur.read.Snapshot? || s.workers[w].cur.read.Reparse?)
    case SetRules(_) => true
  }

  ghost function Do(s: State, step: Step): State
    requires Enabled(s, step)
  {
    var d := s.disp;
    match step
    case StartBurst(inputs, tsc) => s.(disp := Disp(LookingUp, inputs, [], 0, [], false, tsc, d.buffers))
    case LookupNext =>
      var positions := d.positions + [Lookup(s.hash, d.burst[|d.positions|].key)];
      s.(disp := d.(positions := positions, pc := if |positions| == |d.burst| then Ready else LookingUp))
    case ReuseResolved(r) => DoReuse(s, d.resolved[r].stamp)
    case UseHit => DoHit(s, d.positions[d.next])
    case AddFlow => DoAdd(s)
    case AddFails => s.(disp := d.(pc := Evicting(0)))
    case ValidateVictim(position, gen) =>
      s.(disp := d.(pc := Deleting(d.pc.evicted, KeyFromCold(s.side.cold[position]), position, gen)))
    case DeleteVictim => DoDeleteVictim(s)
    case EndReplacement => DoEndReplacement(s)
    case RetryFails => DropNext(s)
    case Write => DoWrite(s)
    case EndPackets => s.(disp := d.(pc := Enqueueing(0)))
    case Enqueue(sent) => DoEnqueue(s, sent)
    case EmptyPoll => s.(hash := Quiescent(s.hash, DispatcherActor))
    case GoOffline => s.(hash := Offline(s.hash, MaintenanceActor), held := [])
    case GoOnline => s.(hash := Quiescent(s.hash, MaintenanceActor))
    case Observe(k) => s.(held := s.held + [(k, s.hash.mapped[k])])
    case DeleteHeld(i) => DoDeleteHeld(s, s.held[i].1)
    case MaintenanceQuiescent => s.(hash := Quiescent(s.hash, MaintenanceActor), held := [])
    case ReclaimStep => s.(hash := ReclaimOne(s.hash))
    case Dequeue(w) => DoDequeue(s, w)
    case CheckFirst(w) => DoRead(s, w, FirstCheck(s.side, CurStamp(s, w)))
    case Copy(w, f) => DoRead(s, w, CopyOne(s.side, CurStamp(s, w), s.workers[w].cur.read, f))
    case CheckSecond(w) => DoRead(s, w, SecondCheck(s.side, CurStamp(s, w), s.workers[w].cur.read))
    case Classify(w) => DoClassify(s, w)
    case SetRules(rules) => s.(rules := rules)
  }

  // ---------------------------------------------------------------- the inductive invariant

  ghost predicate OwnerIs(side: Side, p: nat, k: Key)
    requires side.Has(p)
  {
    if side.BeforeBump(p) then side.writer.pub.key == k else side.log[p] != [] && side.Owner(p) == k
  }

  /** Every slot that is not free has been, or is being, published for the key the hash stores. */
  ghost predicate CoupleInv(h: Hash, side: Side) {
    && |h.keyStore| <= |side.log| && |side.hot| == |side.cold| == |side.log|
    && forall p | 0 <= p < |h.keyStore| && p !in h.free :: OwnerIs(side, p, h.keyStore[p])
  }

  ghost predicate LogInv(side: Side, flowHash: Key -> u32) {
    && (forall p, i | 0 <= p < |side.log| && 0 <= i < |side.log[p]| ::
          side.log[p][i].worker == WorkerOf(flowHash, side.log[p][i].key))
    && (side.writer.Busy? ==> side.writer.pub.worker == WorkerOf(flowHash, side.writer.pub.key))
  }

  ghost predicate PacketsInv(side: Side, packets: seq<Packet>) {
    forall i | 0 <= i < |packets| ::
      && StampInv(side, packets[i].stamp)
      && ExtractKey(packets[i].input.data, |packets[i].input.data|) == ParseOk(packets[i].input.key)
  }

  ghost predicate EntryInv(side: Side, d: Disp, r: Resolved) {
    && StampInv(side, r.stamp)
    && r.index < d.next && r.index < |d.burst|
    && (side.Rewriting(r.stamp.slot) || Seen(d, side.Owner(r.stamp.slot)))
  }

  /** The resolved_* arrays hold valid stamps, of slots now owned by keys of this burst. */
  ghost predicate ResolvedInv(side: Side, d: Disp) {
    forall r | 0 <= r < |d.resolved| :: EntryInv(side, d, d.resolved[r])
  }

  ghost predicate InResolved(d: Disp, p: nat) {
    exists r :: 0 <= r < |d.resolved| && d.resolved[r].stamp.slot == p
  }

  ghost predicate PositionInv(side: Side, d: Disp, j: nat)
    requires j < |d.positions| && j < |d.burst| && d.positions[j] >= 0
  {
    var p := d.positions[j];
    && side.Has(p)
    && (InResolved(d, p) || (side.writer.Busy? && side.writer.slot == p)
        || (side.log[p] != [] && side.Owner(p) == d.burst[j].key))
  }

  /** A slot named by the bulk lookup keeps its owner unless this burst republishes it. */
  ghost predicate PositionsInv(side: Side, d: Disp) {
    && |d.positions| <= |d.burst|
    && forall j | 0 <= j < |d.positions| && d.positions[j] >= 0 && !Seen(d, d.burst[j].key) :: PositionInv(side, d, j)
  }

  ghost predicate MissInv(h: Hash, d: Disp) {
    forall j | 0 <= j < |d.positions| && j < |d.burst| && d.positions[j] < 0 && d.burst[j].key in h.mapped ::
      Seen(d, d.burst[j].key) || (d.pc.Publishing? && HasNext(d) && d.burst[j].key == NextKey(d))
  }

  /** Grace period: without a replacement, every looked-up slot is still the key's. */
  ghost predicate HeldInv(h: Hash, d: Disp) {
    && h.dispatcherCnt > 0
    && (!d.replaced ==> forall j | 0 <= j < |d.positions| && j < |d.burst| && d.positions[j] >= 0 ::
          Held(h, DispatcherActor, d.burst[j].key, d.positions[j]))
  }

  ghost predicate PcInv(h: Hash, writer: Writer, d: Disp) {
    && |d.buffers| == NUM_WORKERS
    && d.next <= |d.burst|
    && (d.pc.Idle? || d.pc.LookingUp? ==> d.next == 0 && d.resolved == [] && !d.replaced)
    && (d.pc.Idle? ==> d.burst == [] && d.positions == [] && d.buffers == NO_BUFFERS)
    && (!d.pc.Idle? ==> d.tsc > 0)
    && (!d.pc.Idle? && !d.pc.LookingUp? ==> |d.positions| == |d.burst|)
    && (d.pc.Enqueueing? ==> d.pc.worker < NUM_WORKERS && forall w | 0 <= w < d.pc.worker :: d.buffers[w] == [])
    && (d.pc.Publishing? <==> writer.Busy?)
    && (d.pc.Evicting? || d.pc.Deleting? || d.pc.Retry? || d.pc.Publishing? ==>
          HasNext(d) && !Seen(d, NextKey(d)) && d.positions[d.next] < 0)
    && (writer.Busy? ==>
          && writer.pub.key == NextKey(d) && writer.pub.tsc == d.tsc
          && writer.slot < |h.keyStore| && h.keyStore[writer.slot] == writer.pub.key)
    && forall i | 0 <= i < |d.burst| :: ExtractKey(d.burst[i].data, |d.burst[i].data|) == ParseOk(d.burst[i].key)
  }

  /** A validated victim is the latest owner of its slot, published as the validated generation
      and, if still mapped, mapped to it. */
  ghost predicate VictimInv(h: Hash, side: Side, d: Disp) {
    d.pc.Deleting? ==>
      && side.Has(d.pc.slot) && side.log[d.pc.slot] != [] && side.Owner(d.pc.slot) == d.pc.victim
      && side.hot[d.pc.slot].gen == d.pc.gen
      && (d.pc.victim in h.mapped ==> h.mapped[d.pc.victim] == d.pc.slot)
  }

  function Ids(done: seq<Done>): (ids: seq<nat>)
    ensures |ids| == |done| && forall i | 0 <= i < |done| :: ids[i] == done[i].id
  {
    seq(|done|, i requires 0 <= i < |done| => done[i].id)
  }

  function CurId(cur: Cur): seq<nat> {
    if cur.NoPacket? then [] else [cur.id]
  }

  /** Everything routed to a worker, oldest first. */
  function Queue(ws: WorkerState, buffer: seq<nat>): seq<nat> {
    Ids(ws.done) + CurId(ws.cur) + ws.ring + buffer
  }

  ghost predicate QueueInv(packets: seq<Packet>, queue: seq<nat>, w: nat) {
    && Increasing(queue)
    && forall i | 0 <= i < |queue| :: queue[i] < |packets| && packets[queue[i]].stamp.worker == w
  }

  ghost predicate QueuesInv(packets: seq<Packet>, workers: seq<WorkerState>, buffers: seq<seq<nat>>) {
    && |workers| == |buffers| == NUM_WORKERS
    && forall w | 0 <= w < NUM_WORKERS :: QueueInv(packets, Queue(workers[w], buffers[w]), w)
  }

  ghost predicate CurInv(side: Side, packets: seq<Packet>, cur: Cur) {
    cur.Current? ==> cur.id < |packets| && StampInv(side, packets[cur.id].stamp)
                     && ReadInv(side, packets[cur.id].stamp, cur.read)
  }

  ghost predicate ReadersInv(side: Side, packets: seq<Packet>, workers: seq<WorkerState>) {
    forall w | 0 <= w < |workers| :: CurInv(side, packets, workers[w].cur)
  }

  ghost predicate DoneInv(side: Side, packets: seq<Packet>, e: Done) {
    && e.id < |packets| && StampInv(side, packets[e.id].stamp)
    && match e.path
       case BySnapshot(at) =>
         packets[e.id].stamp.pub <= at &&
         (at - packets[e.id].stamp.pub < GEN_PERIOD ==>
            e.action == FirstMatch(e.rules, Source(side, packets[e.id].stamp).Record()))
       case ByReparse(_) => e.action == FirstMatch(e.rules, ColdFromKey(packets[e.id].input.key, 0))
  }

  ghost predicate AllDoneInv(side: Side, packets: seq<Packet>, workers: seq<WorkerState>) {
    forall w, i | 0 <= w < |workers| && 0 <= i < |workers[w].done| :: DoneInv(side, packets, workers[w].done[i])
  }

  /** Key pointers kept by the maintenance thread still name the key they were taken for. */
  ghost predicate MaintenanceInv(h: Hash, held: seq<(Key, nat)>) {
    && (h.maintenanceCnt == 0 ==> held == [])
    && forall i | 0 <= i < |held| :: Held(h, MaintenanceActor, held[i].0, held[i].1)
  }

  function EvictedNow(d: Disp): nat {
    if d.pc.Evicting? || d.pc.Deleting? then d.pc.evicted else 0
  }

  function BeingAdded(d: Disp): nat {
    if d.pc.Publishing? then 1 else 0
  }

  ghost predicate CountInv(h: Hash, d: Disp, c: Counters) {
    c.created + BeingAdded(d) == |h.mapped| + c.deleted + c.surplus + EvictedNow(d)
  }

  /** The parts of the invariant: about the hash, about the slots and their stamps, about the
      workers. */
  ghost predicate HashPart(h: Hash, side: Side, d: Disp, held: seq<(Key, nat)>) {
    && HashTable.Valid(h)
    && CoupleInv(h, side)
    && PcInv(h, side.writer, d)
    && MissInv(h, d)
    && HeldInv(h, d)
    && VictimInv(h, side, d)
    && MaintenanceInv(h, held)
  }

  ghost predicate SidePart(side: Side, flowHash: Key -> u32, packets: seq<Packet>, d: Disp) {
    && SideInv(side)
    && LogInv(side, flowHash)
    && PacketsInv(side, packets)
    && ResolvedInv(side, d)
    && PositionsInv(side, d)
  }

  ghost predicate WorkerPart(side: Side, packets: seq<Packet>, workers: seq<WorkerState>, buffers: seq<seq<nat>>) {
    && QueuesInv(packets, workers, buffers)
    && ReadersInv(side, packets, workers)
    && AllDoneInv(side, packets, workers)
  }

  ghost predicate Inv(s: State) {
    && HashPart(s.hash, s.side, s.disp, s.held)
    && SidePart(s.side, s.flowHash, s.packets, s.disp)
    && WorkerPart(s.side, s.packets, s.workers, s.disp.buffers)
    && CountInv(s.hash, s.disp, s.counters)
  }
}
