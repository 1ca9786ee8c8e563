/** Every step of the pipeline keeps the inductive invariant. */
module PipelineInvariant {
  import opened FlowTypes
  import opened Generation
  import opened FlowPacket
  import opened RuleEngine
  import opened HashTable
  import opened SlotSeqlock
  import opened FlowPipeline

  lemma InitHashPart(s: State, n: nat, slots: nat)
    requires Init(s, n, slots)
    ensures HashPart(s.hash, s.side, s.disp, s.held)
  {
    EmptyValid(n);
    forall p | 0 <= p < n ensures p in s.hash.free { assert s.hash.free[p] == p; }
  }

  lemma InitSidePart(s: State, n: nat, slots: nat)
    requires Init(s, n, slots)
    ensures SidePart(s.side, s.flowHash, s.packets, s.disp)
  {
    ZeroSideInv(slots);
  }

  lemma InitWorkerPart(s: State, n: nat, slots: nat)
    requires Init(s, n, slots)
    ensures WorkerPart(s.side, s.packets, s.workers, s.disp.buffers)
  {
    assert Queue(IDLE_WORKER, []) == [];
    assert forall w | 0 <= w < NUM_WORKERS :: s.workers[w] == IDLE_WORKER && s.disp.buffers[w] == [];
  }

  lemma InitInv(s: State, n: nat, slots: nat)
    requires Init(s, n, slots)
    ensures Inv(s)
  {
    InitHashPart(s, n, slots);
    InitSidePart(s, n, slots);
    InitWorkerPart(s, n, slots);
  }

  // ---------------------------------------------------------------- steps of the hash

  lemma LookedUpSurvives(h: Hash, h': Hash, d: Disp)
    requires HeldInv(h, d) && h'.dispatcherCnt > 0
    requires forall k, p | Held(h, DispatcherActor, k, p) :: Held(h', DispatcherActor, k, p)
    ensures HeldInv(h', d)
  {
  }

  lemma DelKeepsHashPart(h: Hash, side: Side, d: Disp, held: seq<(Key, nat)>, k: Key)
    requires HashPart(h, side, d, held)
    ensures HashPart(Del(h, k), side, d, held)
    ensures |Del(h, k).mapped| == if k in h.mapped then |h.mapped| - 1 else |h.mapped|
  {
    var h' := Del(h, k);
    DelKeepsValid(h, k);
    if k in h.mapped { CardMinusKey(h.mapped, k); }
    forall a, j, p | Held(h, a, j, p) ensures Held(h', a, j, p) { HeldSurvivesDel(h, a, j, p, k); }
    LookedUpSurvives(h, h', d);
  }

  lemma ReclaimKeepsHashPart(h: Hash, side: Side, d: Disp, held: seq<(Key, nat)>)
    requires HashPart(h, side, d, held) && CanReclaim(h)
    ensures HashPart(ReclaimOne(h), side, d, held)
  {
    var h' := ReclaimOne(h);
    ReclaimOneKeepsValid(h);
    forall a, j, p | Held(h, a, j, p) ensures Held(h', a, j, p) { HeldSurvivesReclaim(h, a, j, p); }
    LookedUpSurvives(h, h', d);
  }

  lemma DispatcherReport(h: Hash, held: seq<(Key, nat)>)
    requires HashTable.Valid(h) && MaintenanceInv(h, held)
    ensures MaintenanceInv(Quiescent(h, DispatcherActor), held)
    ensures HashTable.Valid(Quiescent(h, DispatcherActor))
  {
    ReportKeepsValid(h, DispatcherActor);
    forall i | 0 <= i < |held|
      ensures Held(Quiescent(h, DispatcherActor), MaintenanceActor, held[i].0, held[i].1)
    {
      HeldSurvivesOther(h, MaintenanceActor, held[i].0, held[i].1, DispatcherActor);
    }
  }

  lemma MaintenanceReport(h: Hash, side: Side, d: Disp, held: seq<(Key, nat)>)
    requires HashPart(h, side, d, held)
    ensures HashPart(Quiescent(h, MaintenanceActor), side, d, [])
    ensures HashPart(Offline(h, MaintenanceActor), side, d, [])
  {
    ReportKeepsValid(h, MaintenanceActor);
    var q, o := Quiescent(h, MaintenanceActor), Offline(h, MaintenanceActor);
    forall k, p | Held(h, DispatcherActor, k, p)
      ensures Held(q, DispatcherActor, k, p) && Held(o, DispatcherActor, k, p)
    {
      HeldSurvivesOther(h, DispatcherActor, k, p, MaintenanceActor);
    }
    LookedUpSurvives(h, q, d);
    LookedUpSurvives(h, o, d);
  }

  lemma ObserveKeepsHashPart(h: Hash, side: Side, d: Disp, held: seq<(Key, nat)>, k: Key)
    requires HashPart(h, side, d, held) && h.maintenanceCnt > 0 && k in h.mapped
    ensures HashPart(h, side, d, held + [(k, h.mapped[k])])
  {
    assert h.Occupied(h.mapped[k]);
  }

  lemma DeleteHeldKeepsInv(s: State, p: nat)
    requires Inv(s) && p < |s.hash.keyStore|
    ensures Inv(DoDeleteHeld(s, p))
  {
    DelKeepsHashPart(s.hash, s.side, s.disp, s.held, s.hash.keyStore[p]);
  }

  lemma ReportKeepsInv(s: State)
    requires Inv(s)
    ensures Inv(s.(hash := Quiescent(s.hash, MaintenanceActor), held := []))
    ensures Inv(s.(hash := Offline(s.hash, MaintenanceActor), held := []))
  {
    MaintenanceReport(s.hash, s.side, s.disp, s.held);
  }

  lemma OnlineKeepsInv(s: State)
    requires Inv(s) && s.hash.maintenanceCnt == 0
    ensures Inv(s.(hash := Quiescent(s.hash, MaintenanceActor)))
  {
    assert MaintenanceInv(s.hash, s.held);
    assert s.held == [];
    MaintenanceReport(s.hash, s.side, s.disp, s.held);
  }

  lemma ReclaimKeepsInv(s: State)
    requires Inv(s) && CanReclaim(s.hash)
    ensures Inv(s.(hash := ReclaimOne(s.hash)))
  {
    ReclaimKeepsHashPart(s.hash, s.side, s.disp, s.held);
  }

  lemma ObserveKeepsInv(s: State, k: Key)
    requires Inv(s) && s.hash.maintenanceCnt > 0 && k in s.hash.mapped
    ensures Inv(s.(held := s.held + [(k, s.hash.mapped[k])]))
  {
    ObserveKeepsHashPart(s.hash, s.side, s.disp, s.held, k);
  }

  lemma MaintenanceStepKeepsInv(s: State, step: Step)
    requires Inv(s) && Enabled(s, step)
    requires step.Observe? || step.DeleteHeld? || step.ReclaimStep? || step.SetRules?
    ensures Inv(Do(s, step))
  {
    match step {
      case DeleteHeld(i) => DeleteHeldKeepsInv(s, s.held[i].1);
      case ReclaimStep => ReclaimKeepsInv(s);
      case Observe(k) => ObserveKeepsInv(s, k);
      case SetRules(_) =>
    }
  }

  lemma ReportStepKeepsInv(s: State, step: Step)
    requires Inv(s) && Enabled(s, step)
    requires step.GoOffline? || step.GoOnline? || step.MaintenanceQuiescent?
    ensures Inv(Do(s, step))
  {
    if step.GoOnline? { OnlineKeepsInv(s); } else { ReportKeepsInv(s); }
  }

  // ---------------------------------------------------------------- steps of the workers

  lemma SameQueue(side: Side, packets: seq<Packet>, workers: seq<WorkerState>, buffers: seq<seq<nat>>,
                  w: nat, ws: WorkerState)
    requires WorkerPart(side, packets, workers, buffers) && w < |workers|
    requires Queue(ws, buffers[w]) == Queue(workers[w], buffers[w])
    requires CurInv(side, packets, ws.cur)
    requires forall i | 0 <= i < |ws.done| :: DoneInv(side, packets, ws.done[i])
    ensures WorkerPart(side, packets, workers[w := ws], buffers)
  {
  }

  lemma ReadKeepsInv(s: State, w: nat, read: Read)
    requires Inv(s) && Handling(s, w)
    requires ReadInv(s.side, CurStamp(s, w), read)
    ensures Inv(DoRead(s, w, read))
  {
    var ws := DoRead(s, w, read).workers[w];
    assert CurInv(s.side, s.packets, s.workers[w].cur);
    SameQueue(s.side, s.packets, s.workers, s.disp.buffers, w, ws);
  }

  lemma DequeueKeepsInv(s: State, w: nat)
    requires Inv(s) && w < |s.workers| && s.workers[w].cur.NoPacket? && s.workers[w].ring != []
    ensures Inv(DoDequeue(s, w))
  {
    var ws, ws' := s.workers[w], DoDequeue(s, w).workers[w];
    var q := Queue(ws, s.disp.buffers[w]);
    assert ws.ring == [ws.ring[0]] + ws.ring[1..];
    assert Queue(ws', s.disp.buffers[w]) == q;
    assert q[|ws.done|] == ws.ring[0];
    assert QueueInv(s.packets, q, w);
    SameQueue(s.side, s.packets, s.workers, s.disp.buffers, w, ws');
  }

  lemma ClassifiedIsDone(s: State, w: nat)
    requires SidePart(s.side, s.flowHash, s.packets, s.disp) && Handling(s, w)
    requires CurInv(s.side, s.packets, s.workers[w].cur)
    requires s.workers[w].cur.read.Snapshot? || s.workers[w].cur.read.Reparse?
    ensures var cur := s.workers[w].cur;
      DoneInv(s.side, s.packets,
              Done(cur.id, PathOf(cur.read), s.rules, ActionFor(s.rules, s.packets[cur.id].input, cur.read)))
  {
    var cur := s.workers[w].cur;
    var input := s.packets[cur.id].input;
    if cur.read.Reparse? {
      assert ExtractKey(input.data, |input.data|) == ParseOk(input.key);
      VerdictIgnoresCreateTime(s.rules, ExtractCold(input.data, |input.data|).value, ColdFromKey(input.key, 0));
    }
  }

  /** Appending a finished packet to a worker's list. */
  lemma DoneGrows(side: Side, packets: seq<Packet>, ws: WorkerState, e: Done, buffer: seq<nat>)
    requires ws.cur.Current? && e.id == ws.cur.id && DoneInv(side, packets, e)
    requires forall i | 0 <= i < |ws.done| :: DoneInv(side, packets, ws.done[i])
    ensures var ws' := ws.(cur := NoPacket, done := ws.done + [e]);
      && Queue(ws', buffer) == Queue(ws, buffer)
      && forall i | 0 <= i < |ws'.done| :: DoneInv(side, packets, ws'.done[i])
  {
    assert Ids(ws.done + [e]) == Ids(ws.done) + [ws.cur.id];
    assert Ids(ws.done) + [ws.cur.id] + [] + ws.ring == Ids(ws.done) + [ws.cur.id] + ws.ring;
  }

  lemma ClassifyKeepsInv(s: State, w: nat)
    requires Inv(s) && Handling(s, w) && (s.workers[w].cur.read.Snapshot? || s.workers[w].cur.read.Reparse?)
    ensures Inv(DoClassify(s, w))
  {
    var ws, ws' := s.workers[w], DoClassify(s, w).workers[w];
    assert CurInv(s.side, s.packets, ws.cur);
    ClassifiedIsDone(s, w);
    DoneGrows(s.side, s.packets, ws, ws'.done[|ws.done|], s.disp.buffers[w]);
    SameQueue(s.side, s.packets, s.workers, s.disp.buffers, w, ws');
  }

  lemma CheckFirstKeepsInv(s: State, w: nat)
    requires Inv(s) && Handling(s, w)
    ensures Inv(DoRead(s, w, FirstCheck(s.side, CurStamp(s, w))))
  {
    assert CurInv(s.side, s.packets, s.workers[w].cur);
    ReadKeepsInv(s, w, FirstCheck(s.side, CurStamp(s, w)));
  }

  lemma CopyKeepsInv(s: State, w: nat, f: Field)
    requires Inv(s) && Handling(s, w) && s.workers[w].cur.read.Copying? && s.side.Has(CurStamp(s, w).slot)
    ensures Inv(DoRead(s, w, CopyOne(s.side, CurStamp(s, w), s.workers[w].cur.read, f)))
  {
    assert CurInv(s.side, s.packets, s.workers[w].cur);
    CopyKeepsRead(s.side, CurStamp(s, w), s.workers[w].cur.read, f);
    ReadKeepsInv(s, w, CopyOne(s.side, CurStamp(s, w), s.workers[w].cur.read, f));
  }

  lemma CheckSecondKeepsInv(s: State, w: nat)
    requires Inv(s) && Handling(s, w) && CopiedAll(s.workers[w].cur.read) && s.side.Has(CurStamp(s, w).slot)
    ensures Inv(DoRead(s, w, SecondCheck(s.side, CurStamp(s, w), s.workers[w].cur.read)))
  {
    assert CurInv(s.side, s.packets, s.workers[w].cur);
    SecondCheckKeepsRead(s.side, CurStamp(s, w), s.workers[w].cur.read);
    ReadKeepsInv(s, w, SecondCheck(s.side, CurStamp(s, w), s.workers[w].cur.read));
  }

  lemma ReadStepKeepsInv(s: State, step: Step)
    requires Inv(s) && Enabled(s, step)
    requires step.CheckFirst? || step.Copy? || step.CheckSecond?
    ensures Inv(Do(s, step))
  {
    match step {
      case CheckFirst(w) => CheckFirstKeepsInv(s, w);
      case Copy(w, f) => CopyKeepsInv(s, w, f);
      case CheckSecond(w) => CheckSecondKeepsInv(s, w);
    }
  }

  // ---------------------------------------------------------------- the dispatcher's stores

  /** An access that keeps stamps valid and changes owners only of the slot being written. */
  ghost predicate AccessOf(side: Side, side': Side) {
    && |side'.log| == |side.log|
    && (forall t | StampInv(side, t) :: StampInv(side', t))
    && (forall p | 0 <= p < |side.log| ::
          || (side'.log[p] == side.log[p] && (side.Rewriting(p) ==> side'.Rewriting(p)))
          || side'.Rewriting(p))
    && (side.writer.Busy? ==> side'.writer.Busy? && side'.writer.slot == side.writer.slot)
  }

  lemma AccessKeepsEntry(side: Side, side': Side, d: Disp, r: Resolved)
    requires AccessOf(side, side') && EntryInv(side, d, r)
    ensures EntryInv(side', d, r)
  {
    assert StampInv(side', r.stamp);
  }

  lemma AccessKeepsResolved(side: Side, side': Side, d: Disp)
    requires AccessOf(side, side') && ResolvedInv(side, d)
    ensures ResolvedInv(side', d)
  {
    forall r | 0 <= r < |d.resolved| ensures EntryInv(side', d, d.resolved[r]) {
      AccessKeepsEntry(side, side', d, d.resolved[r]);
    }
  }

  lemma AccessKeepsPositions(side: Side, side': Side, d: Disp)
    requires AccessOf(side, side') && PositionsInv(side, d) && |side'.hot| == |side'.cold| == |side'.log|
    ensures PositionsInv(side', d)
  {
    forall j | 0 <= j < |d.positions| && d.positions[j] >= 0 && !Seen(d, d.burst[j].key)
      ensures PositionInv(side', d, j) {
      assert PositionInv(side, d, j);
    }
  }

  lemma AccessKeepsSidePart(side: Side, side': Side, flowHash: Key -> u32, packets: seq<Packet>, d: Disp)
    requires SidePart(side, flowHash, packets, d)
    requires AccessOf(side, side') && SideInv(side') && LogInv(side', flowHash)
    ensures SidePart(side', flowHash, packets, d)
  {
    AccessKeepsResolved(side, side', d);
    AccessKeepsPositions(side, side', d);
  }

  lemma TouchIsAccess(side: Side, p: nat, tsc: nat)
    requires SideInv(side) && side.writer.Quiet? && side.Has(p) && tsc > 0 && side.log[p] != []
    ensures SideInv(Touch(side, p, tsc)) && AccessOf(side, Touch(side, p, tsc))
  {
    TouchKeepsSide(side, p, tsc);
  }

  lemma BeginIsAccess(side: Side, p: nat, pub: Pub)
    requires SideInv(side) && side.writer.Quiet? && side.Has(p) && pub.tsc > 0
    ensures SideInv(Begin(side, p, pub)) && AccessOf(side, Begin(side, p, pub))
  {
    BeginKeepsSide(side, p, pub);
  }

  lemma WriterStepIsAccess(side: Side)
    requires SideInv(side) && CanWrite(side) && !side.writer.stage.SetLastSeen?
    ensures SideInv(WriterStep(side)) && AccessOf(side, WriterStep(side))
  {
    WriterStepKeepsSide(side);
    forall t | StampInv(side, t) ensures StampInv(WriterStep(side), t) { StampSurvivesWriter(side, t); }
  }

  lemma WriterKeepsLog(side: Side, flowHash: Key -> u32)
    requires SideInv(side) && CanWrite(side) && LogInv(side, flowHash)
    ensures LogInv(WriterStep(side), flowHash)
  {
  }

  lemma PcChangeKeepsSidePart(side: Side, flowHash: Key -> u32, packets: seq<Packet>, d: Disp, d': Disp)
    requires SidePart(side, flowHash, packets, d)
    requires d' == d.(pc := d'.pc, replaced := d'.replaced)
    ensures SidePart(side, flowHash, packets, d')
  {
    assert forall k :: Seen(d, k) <==> Seen(d', k);
    forall r | 0 <= r < |d.resolved| ensures EntryInv(side, d', d'.resolved[r]) {
      assert EntryInv(side, d, d.resolved[r]);
    }
    forall j | 0 <= j < |d.positions| && d.positions[j] >= 0 && !Seen(d', d.burst[j].key)
      ensures PositionInv(side, d', j) {
      assert PositionInv(side, d, j);
    }
  }

  /** A change of the arrays that keeps every stamp and every reader's claim. */
  ghost predicate KeepsReaders(side: Side, side': Side) {
    forall t, read | StampInv(side, t) && ReadInv(side, t, read) ::
      StampInv(side', t) && Source(side', t) == Source(side, t) && ReadInv(side', t, read)
  }

  lemma TouchKeepsReaders(side: Side, p: nat, tsc: nat)
    requires SideInv(side) && side.Has(p)
    ensures KeepsReaders(side, Touch(side, p, tsc))
  {
  }

  lemma BeginKeepsReaders(side: Side, p: nat, pub: Pub)
    requires SideInv(side) && side.writer.Quiet? && side.Has(p)
    ensures KeepsReaders(side, Begin(side, p, pub))
  {
  }

  lemma WriterKeepsReaders(side: Side)
    requires SideInv(side) && CanWrite(side)
    ensures KeepsReaders(side, WriterStep(side))
  {
    forall t, read | StampInv(side, t) && ReadInv(side, t, read)
      ensures StampInv(WriterStep(side), t) && Source(WriterStep(side), t) == Source(side, t)
      ensures ReadInv(WriterStep(side), t, read)
    {
      StampSurvivesWriter(side, t);
      WriterKeepsRead(side, t, read);
    }
  }

  lemma ReadersCarryOver(side: Side, side': Side, packets: seq<Packet>, workers: seq<WorkerState>,
                         buffers: seq<seq<nat>>)
    requires WorkerPart(side, packets, workers, buffers) && KeepsReaders(side, side')
    ensures WorkerPart(side', packets, workers, buffers)
  {
    forall w | 0 <= w < |workers| ensures CurInv(side', packets, workers[w].cur) {
      assert CurInv(side, packets, workers[w].cur);
    }
    forall w, i | 0 <= w < |workers| && 0 <= i < |workers[w].done| ensures DoneInv(side', packets, workers[w].done[i]) {
      var e := workers[w].done[i];
      assert DoneInv(side, packets, e);
      assert ReadInv(side, packets[e.id].stamp, Unchecked);
    }
  }

  // ---------------------------------------------------------------- stamping a packet

  lemma NewPacketKeepsWorkers(side: Side, packets: seq<Packet>, workers: seq<WorkerState>, buffers: seq<seq<nat>>,
                              p: Packet)
    requires WorkerPart(side, packets, workers, buffers)
    requires StampInv(side, p.stamp) && p.stamp.worker < NUM_WORKERS
    ensures var w := p.stamp.worker;
      WorkerPart(side, packets + [p], workers, buffers[w := buffers[w] + [|packets|]])
  {
    var packets', w0 := packets + [p], p.stamp.worker;
    var buffers' := buffers[w0 := buffers[w0] + [|packets|]];
    forall w | 0 <= w < NUM_WORKERS ensures QueueInv(packets', Queue(workers[w], buffers'[w]), w) {
      assert QueueInv(packets, Queue(workers[w], buffers[w]), w);
      if w == w0 {
        assert Queue(workers[w], buffers'[w]) == Queue(workers[w], buffers[w]) + [|packets|];
      }
    }
    forall w | 0 <= w < |workers| ensures CurInv(side, packets', workers[w].cur) {
      assert CurInv(side, packets, workers[w].cur);
    }
    forall w, i | 0 <= w < |workers| && 0 <= i < |workers[w].done| ensures DoneInv(side, packets', workers[w].done[i]) {
      assert DoneInv(side, packets, workers[w].done[i]);
    }
  }

  /** d after the packet at `next` was stamped; extra is what it adds to the resolved_* arrays. */
  function Advanced(d: Disp, extra: seq<Resolved>, buffers: seq<seq<nat>>): Disp {
    d.(pc := Ready, next := d.next + 1, resolved := d.resolved + extra, buffers := buffers)
  }

  lemma SeenGrows(d: Disp, extra: seq<Resolved>, buffers: seq<seq<nat>>, k: Key)
    ensures Seen(d, k) ==> Seen(Advanced(d, extra, buffers), k)
  {
    var d' := Advanced(d, extra, buffers);
    if Seen(d, k) {
      var r :| 0 <= r < |d.resolved| && d.resolved[r].index < |d.burst| && d.burst[d.resolved[r].index].key == k;
      assert d'.resolved[r] == d.resolved[r];
    }
  }

  lemma NextIsSeen(d: Disp, t: Stamp, buffers: seq<seq<nat>>)
    requires HasNext(d)
    ensures Seen(Advanced(d, [Resolved(d.next, t)], buffers), NextKey(d))
    ensures InResolved(Advanced(d, [Resolved(d.next, t)], buffers), t.slot)
  {
    var d' := Advanced(d, [Resolved(d.next, t)], buffers);
    assert d'.resolved[|d.resolved|] == Resolved(d.next, t);
  }

  lemma AdvanceHashPart(h: Hash, side: Side, side': Side, d: Disp, extra: seq<Resolved>, buffers: seq<seq<nat>>,
                        held: seq<(Key, nat)>)
    requires HashPart(h, side, d, held) && CoupleInv(h, side') && side'.writer.Quiet?
    requires HasNext(d) && |buffers| == NUM_WORKERS && !d.pc.Idle? && !d.pc.LookingUp? && !d.pc.Enqueueing?
    requires d.pc.Publishing? ==> Seen(Advanced(d, extra, buffers), NextKey(d))
    ensures HashPart(h, side', Advanced(d, extra, buffers), held)
  {
    var d' := Advanced(d, extra, buffers);
    forall k ensures Seen(d, k) ==> Seen(d', k) { SeenGrows(d, extra, buffers, k); }
  }

  lemma AdvanceSidePart(side: Side, flowHash: Key -> u32, packets: seq<Packet>, d: Disp, extra: seq<Resolved>,
                        buffers: seq<seq<nat>>, p: Packet)
    requires SidePart(side, flowHash, packets, d) && HasNext(d) && side.writer.Quiet?
    requires StampInv(side, p.stamp)
    requires ExtractKey(p.input.data, |p.input.data|) == ParseOk(p.input.key)
    requires extra == [] ||
             (extra == [Resolved(d.next, p.stamp)] && Seen(Advanced(d, extra, buffers), side.Owner(p.stamp.slot)))
    ensures SidePart(side, flowHash, packets + [p], Advanced(d, extra, buffers))
  {
    var d' := Advanced(d, extra, buffers);
    forall k ensures Seen(d, k) ==> Seen(d', k) { SeenGrows(d, extra, buffers, k); }
    forall r | 0 <= r < |d'.resolved| ensures EntryInv(side, d', d'.resolved[r]) {
      if r < |d.resolved| { assert EntryInv(side, d, d.resolved[r]); }
    }
    forall j | 0 <= j < |d.positions| && d.positions[j] >= 0 && !Seen(d', d.burst[j].key)
      ensures PositionInv(side, d', j) {
      assert PositionInv(side, d, j);
      if InResolved(d, d.positions[j]) {
        var r :| 0 <= r < |d.resolved| && d.resolved[r].stamp.slot == d.positions[j];
        assert d'.resolved[r] == d.resolved[r];
      }
    }
  }
}
